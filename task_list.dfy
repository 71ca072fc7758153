/**
 * Values held by the task editor view, and the two pure list transformations
 * its handlers apply: replacing the tasks whose id is under edit (an update)
 * and filtering out the tasks with a given id (a delete).
 */
module TaskList {

  /** Task ids are issued by the server; they are non-negative integers. */
  type Id = nat

  /** One task record as the server returns it. */
  datatype Task = Task(id: Id, name: string, description: string)

  /** The form's draft: the two text fields the user edits. */
  datatype Draft = Draft(name: string, description: string)

  /** The two named form inputs whose change events update the draft. */
  datatype Field = TaskName | TaskDescription

  /** An id, or null. */
  datatype Option<+T> = None | Some(value: T)

  /** The settled result of a remote call: the response payload, or a rejection. */
  datatype Outcome<+T> = Success(data: T) | Failure

  /** The draft the view starts with and resets to: two empty strings. */
  const EmptyDraft := Draft("", "")

  /** JavaScript truthiness of the `editing` state: null and the id 0 are falsy. */
  predicate Truthy(editing: Option<Id>)
  {
    editing.Some? && editing.value != 0
  }

  /** The update's map condition: the task's id is strictly equal to `editing`. */
  predicate Matches(t: Task, editing: Option<Id>)
  {
    editing == Some(t.id)
  }

  /** Some task of the list carries id `id`. */
  predicate HasId(tasks: seq<Task>, id: Id)
  {
    exists i :: 0 <= i < |tasks| && tasks[i].id == id
  }

  /**
   * No two positions of the list carry the same id. This is an assumption about
   * the ids the server issues; the view never checks it and only keys its
   * rendered list by the id.
   */
  ghost predicate UniqueIds(tasks: seq<Task>)
  {
    forall i, j :: 0 <= i < j < |tasks| ==> tasks[i].id != tasks[j].id
  }

  /**
   * The list after a successful update: every task whose id matches `editing`
   * is replaced by the server's `updated` task; every other task stays where it was.
   */
  function ReplaceMatching(tasks: seq<Task>, editing: Option<Id>, updated: Task): (r: seq<Task>)
    ensures |r| == |tasks|
    ensures forall i :: 0 <= i < |tasks| && Matches(tasks[i], editing) ==> r[i] == updated
    ensures forall i :: 0 <= i < |tasks| && !Matches(tasks[i], editing) ==> r[i] == tasks[i]
  {
    if tasks == [] then []
    else [if Matches(tasks[0], editing) then updated else tasks[0]]
         + ReplaceMatching(tasks[1..], editing, updated)
  }

  /**
   * The list after a successful delete: exactly the tasks whose id differs
   * from `id` survive, and nothing else appears.
   */
  function RemoveId(tasks: seq<Task>, id: Id): (r: seq<Task>)
    ensures |r| <= |tasks|
    ensures forall t :: t in r <==> t in tasks && t.id != id
  {
    if tasks == [] then []
    else if tasks[0].id != id then [tasks[0]] + RemoveId(tasks[1..], id)
    else RemoveId(tasks[1..], id)
  }

  /** The filter works piecewise, so the survivors keep their relative order. */
  lemma {:induction false} RemoveIdAppend(a: seq<Task>, b: seq<Task>, id: Id)
    ensures RemoveId(a + b, id) == RemoveId(a, id) + RemoveId(b, id)
  {
    if a == [] {
      assert a + b == b;
    } else {
      assert (a + b)[1..] == a[1..] + b;
      RemoveIdAppend(a[1..], b, id);
    }
  }

  /** Deleting an id no task carries leaves the list exactly as it was. */
  lemma {:induction false} RemoveAbsent(tasks: seq<Task>, id: Id)
    requires !HasId(tasks, id)
    ensures RemoveId(tasks, id) == tasks
  {
    if tasks != [] {
      assert tasks[0].id != id;
      assert !HasId(tasks[1..], id) by {
        forall i | 0 <= i < |tasks[1..]| ensures tasks[1..][i].id != id {
          assert tasks[1..][i] == tasks[i + 1];
        }
      }
      RemoveAbsent(tasks[1..], id);
    }
  }

  /**
   * With unique ids, deleting the id at position k removes that one task and
   * nothing else: the list loses exactly one element and the rest keep their order.
   */
  lemma RemoveUniquePresent(tasks: seq<Task>, k: nat)
    requires UniqueIds(tasks)
    requires k < |tasks|
    ensures RemoveId(tasks, tasks[k].id) == tasks[..k] + tasks[k + 1..]
    ensures |RemoveId(tasks, tasks[k].id)| == |tasks| - 1
  {
    var id := tasks[k].id;
    var pre, post := tasks[..k], tasks[k + 1..];
    assert tasks == pre + ([tasks[k]] + post);
    RemoveIdAppend(pre, [tasks[k]] + post, id);
    RemoveIdAppend([tasks[k]], post, id);
    assert !HasId(pre, id) by {
      forall i | 0 <= i < |pre| ensures pre[i].id != id {
        assert pre[i] == tasks[i];
      }
    }
    assert !HasId(post, id) by {
      forall i | 0 <= i < |post| ensures post[i].id != id {
        assert post[i] == tasks[k + 1 + i];
      }
    }
    RemoveAbsent(pre, id);
    RemoveAbsent(post, id);
    assert RemoveId([tasks[k]], id) == [];
  }

  /** Deleting never introduces a duplicate id. */
  lemma {:induction false} RemovePreservesUnique(tasks: seq<Task>, id: Id)
    requires UniqueIds(tasks)
    ensures UniqueIds(RemoveId(tasks, id))
  {
    if tasks != [] {
      var rest := tasks[1..];
      assert UniqueIds(rest) by {
        forall i, j | 0 <= i < j < |rest| ensures rest[i].id != rest[j].id {
          assert rest[i] == tasks[i + 1] && rest[j] == tasks[j + 1];
        }
      }
      RemovePreservesUnique(rest, id);
      if tasks[0].id != id {
        var r := RemoveId(rest, id);
        forall t | t in r ensures t.id != tasks[0].id {
          assert t in rest;
          var j :| 0 <= j < |rest| && rest[j] == t;
          assert rest[j] == tasks[j + 1];
        }
        var s := [tasks[0]] + r;
        forall i, j | 0 <= i < j < |s| ensures s[i].id != s[j].id {
          if i == 0 {
            assert s[j] == r[j - 1] && s[j] in r;
          } else {
            assert s[i] == r[i - 1] && s[j] == r[j - 1];
          }
        }
      }
    }
  }

  /** Updating an id no task carries leaves the list exactly as it was. */
  lemma ReplaceAbsent(tasks: seq<Task>, id: Id, updated: Task)
    requires !HasId(tasks, id)
    ensures ReplaceMatching(tasks, Some(id), updated) == tasks
  {
  }

  /**
   * With unique ids, updating the id at position k replaces that one task in
   * place with the server's version and leaves every other position unchanged.
   */
  lemma ReplaceUniquePresent(tasks: seq<Task>, k: nat, updated: Task)
    requires UniqueIds(tasks)
    requires k < |tasks|
    ensures ReplaceMatching(tasks, Some(tasks[k].id), updated) == tasks[..k] + [updated] + tasks[k + 1..]
  {
  }

  /** An update whose returned task keeps the edited id never introduces a duplicate id. */
  lemma ReplacePreservesUnique(tasks: seq<Task>, editing: Option<Id>, updated: Task)
    requires UniqueIds(tasks)
    requires editing == Some(updated.id)
    ensures UniqueIds(ReplaceMatching(tasks, editing, updated))
  {
  }

  /** Appending a task whose id is new keeps the ids unique. */
  lemma AppendPreservesUnique(tasks: seq<Task>, created: Task)
    requires UniqueIds(tasks)
    requires !HasId(tasks, created.id)
    ensures UniqueIds(tasks + [created])
  {
  }
}
