/**
 * The task editor view as a state machine. Its three pieces of state are
 * fields of one object; each event handler is a method that replaces them.
 * A handler that awaits the server takes the settled response as a parameter:
 * a rejection is only logged, so on `Failure` nothing changes.
 */
module TaskForm {
  import opened TaskList

  class TaskComponent {
    /** The tasks shown, in server and append order. */
    var tasks: seq<Task>
    /** The form's contents. */
    var draft: Draft
    /** The id of the task under edit, or null in create mode. */
    var editing: Option<Id>

    /** Mounting the view: no tasks, an empty draft, create mode. */
    constructor ()
      ensures tasks == [] && draft == EmptyDraft && editing == None
    {
      tasks := [];
      draft := EmptyDraft;
      editing := None;
    }

    /**
     * Loading the list replaces it wholesale with the server's list, in the
     * server's order, so repeating a load with the same response changes
     * nothing more; a failed load keeps the list.
     */
    method FetchTasks(response: Outcome<seq<Task>>)
      modifies this
      ensures response.Success? ==> tasks == response.data
      ensures response.Failure? ==> tasks == old(tasks)
      ensures draft == old(draft) && editing == old(editing)
    {
      if response.Success? {
        tasks := response.data;
      }
    }

    /** Typing into one input sets that draft field alone. */
    method HandleChange(field: Field, value: string)
      modifies this
      ensures field == TaskName ==> draft.name == value && draft.description == old(draft.description)
      ensures field == TaskDescription ==> draft.description == value && draft.name == old(draft.name)
      ensures tasks == old(tasks) && editing == old(editing)
    {
      match field
      case TaskName => draft := draft.(name := value);
      case TaskDescription => draft := draft.(description := value);
    }

    /**
     * Creating: the server's task is appended after the existing ones and the
     * draft is emptied; on failure the list and the user's draft are kept.
     * When the server issues a new id, ids stay unique.
     */
    method HandleCreate(response: Outcome<Task>)
      modifies this
      ensures response.Success? ==> tasks == old(tasks) + [response.data] && draft == EmptyDraft
      ensures response.Failure? ==> tasks == old(tasks) && draft == old(draft)
      ensures editing == old(editing)
      ensures response.Success? && old(UniqueIds(tasks)) && !old(HasId(tasks, response.data.id))
              ==> UniqueIds(tasks)
    {
      if response.Success? {
        if UniqueIds(tasks) && !HasId(tasks, response.data.id) {
          AppendPreservesUnique(tasks, response.data);
        }
        tasks := tasks + [response.data];
        draft := EmptyDraft;
      }
    }

    /**
     * Updating: every task whose id equals `editing` is replaced in place by
     * the server's task, the list keeps its length, and the view returns to
     * create mode with an empty draft; on failure nothing changes.
     * When the server keeps the edited id, ids stay unique.
     */
    method HandleUpdate(response: Outcome<Task>)
      modifies this
      ensures response.Success? ==>
                && tasks == ReplaceMatching(old(tasks), old(editing), response.data)
                && editing == None && draft == EmptyDraft
      ensures response.Failure? ==> tasks == old(tasks) && draft == old(draft) && editing == old(editing)
      ensures |tasks| == |old(tasks)|
      ensures response.Success? && old(UniqueIds(tasks)) && old(editing) == Some(response.data.id)
              ==> UniqueIds(tasks)
    {
      if response.Success? {
        if UniqueIds(tasks) && editing == Some(response.data.id) {
          ReplacePreservesUnique(tasks, editing, response.data);
        }
        tasks := ReplaceMatching(tasks, editing, response.data);
        editing := None;
        draft := EmptyDraft;
      }
    }

    /**
     * Deleting: the tasks carrying `id` are filtered out and the others keep
     * their order; the edit target and the draft are left alone, even when the
     * deleted task is the one under edit. On failure nothing changes.
     */
    method HandleDelete(id: Id, response: Outcome<()>)
      modifies this
      ensures response.Success? ==> tasks == RemoveId(old(tasks), id)
      ensures response.Failure? ==> tasks == old(tasks)
      ensures draft == old(draft) && editing == old(editing)
      ensures old(UniqueIds(tasks)) ==> UniqueIds(tasks)
    {
      if response.Success? {
        if UniqueIds(tasks) {
          RemovePreservesUnique(tasks, id);
        }
        tasks := RemoveId(tasks, id);
      }
    }

    /** Starting an edit targets the task's id and copies its fields into the draft. */
    method StartEditing(task: Task)
      modifies this
      ensures editing == Some(task.id)
      ensures draft == Draft(task.name, task.description)
      ensures tasks == old(tasks)
    {
      editing := Some(task.id);
      draft := Draft(task.name, task.description);
    }

    /**
     * Submitting the form updates when `editing` is truthy (set and not 0)
     * and creates otherwise, with the effect of that handler.
     */
    method HandleFormSubmit(response: Outcome<Task>)
      modifies this
      ensures Truthy(old(editing)) && response.Success? ==>
                && tasks == ReplaceMatching(old(tasks), old(editing), response.data)
                && editing == None && draft == EmptyDraft
      ensures !Truthy(old(editing)) && response.Success? ==>
                && tasks == old(tasks) + [response.data]
                && editing == old(editing) && draft == EmptyDraft
      ensures response.Failure? ==> tasks == old(tasks) && draft == old(draft) && editing == old(editing)
    {
      if Truthy(editing) {
        HandleUpdate(response);
      } else {
        HandleCreate(response);
      }
    }
  }

  /** Create, edit, update and delete one task, through the form as a user does. */
  method BuyMilkSession()
  {
    var view := new TaskComponent();
    view.FetchTasks(Success([]));
    view.HandleChange(TaskName, "Buy milk");
    view.HandleFormSubmit(Success(Task(1, "Buy milk", "")));
    assert view.tasks == [Task(1, "Buy milk", "")];
    assert view.draft == EmptyDraft && view.editing == None;

    view.StartEditing(view.tasks[0]);
    assert view.editing == Some(1) && view.draft == Draft("Buy milk", "");
    view.HandleChange(TaskName, "Buy oat milk");
    view.HandleFormSubmit(Success(Task(1, "Buy oat milk", "")));
    assert view.tasks == [Task(1, "Buy oat milk", "")];
    assert view.editing == None && view.draft == EmptyDraft;

    view.HandleDelete(1, Failure);
    assert view.tasks == [Task(1, "Buy oat milk", "")];
    view.HandleDelete(1, Success(()));
    assert view.tasks == [];
  }

  /** A task whose id is 0 cannot be edited through the form: submitting creates a new task. */
  method ZeroIdSubmitCreates()
  {
    var view := new TaskComponent();
    var zero := Task(0, "Water plants", "balcony");
    view.FetchTasks(Success([zero]));
    view.StartEditing(zero);
    view.HandleFormSubmit(Success(Task(2, "Water plants", "balcony")));
    assert view.tasks == [zero, Task(2, "Water plants", "balcony")];
    assert view.editing == Some(0);
  }

  /** Loading twice with the same response gives the same list as loading once. */
  method RepeatedFetch(view: TaskComponent, response: Outcome<seq<Task>>)
    modifies view
  {
    view.FetchTasks(response);
    var once := view.tasks;
    view.FetchTasks(response);
    assert view.tasks == once;
  }
}
