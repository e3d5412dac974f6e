/**
 * The personal task list: adding a task with a non-blank title, flipping a task's
 * completion flag and deleting a task, each applied to the list once the store accepts it.
 */
module TaskManager {
  import opened JsText

  datatype Task = Task(id: int, title: string, isComplete: bool, insertedAt: string)

  /** `tasks.map(task => task.id === id ? { ...task, is_complete: !isComplete } : task)`. */
  function Toggled(tasks: seq<Task>, id: int, isComplete: bool): (r: seq<Task>)
    ensures |r| == |tasks|
    ensures forall k :: 0 <= k < |tasks| ==>
      && r[k].id == tasks[k].id && r[k].title == tasks[k].title && r[k].insertedAt == tasks[k].insertedAt
      && r[k].isComplete == (if tasks[k].id == id then !isComplete else tasks[k].isComplete)
  {
    seq(|tasks|, k requires 0 <= k < |tasks| => if tasks[k].id == id then tasks[k].(isComplete := !isComplete) else tasks[k])
  }

  /** No two tasks share an id. */
  predicate UniqueIds(tasks: seq<Task>) {
    forall i, j :: 0 <= i < j < |tasks| ==> tasks[i].id != tasks[j].id
  }

  /** Toggling a task with the flag it shows, then toggling it back, restores the list. */
  lemma ToggleTwice(tasks: seq<Task>, id: int, isComplete: bool)
    requires forall k :: 0 <= k < |tasks| && tasks[k].id == id ==> tasks[k].isComplete == isComplete
    ensures Toggled(Toggled(tasks, id, isComplete), id, !isComplete) == tasks
  {
    var once := Toggled(tasks, id, isComplete);
    var twice := Toggled(once, id, !isComplete);
    assert forall k :: 0 <= k < |tasks| ==> twice[k] == tasks[k];
  }

  /** The toggle button of a task passes that task's own flag: with distinct ids, exactly that
      task flips and every other task is left as it is. */
  lemma ToggleFromButton(tasks: seq<Task>, k: int)
    requires UniqueIds(tasks) && 0 <= k < |tasks|
    ensures Toggled(tasks, tasks[k].id, tasks[k].isComplete) == tasks[k := tasks[k].(isComplete := !tasks[k].isComplete)]
  {
    var r := Toggled(tasks, tasks[k].id, tasks[k].isComplete);
    var expected := tasks[k := tasks[k].(isComplete := !tasks[k].isComplete)];
    forall i | 0 <= i < |tasks|
      ensures r[i] == expected[i]
    {
      if i < k {
        assert tasks[i].id != tasks[k].id;
      } else if i > k {
        assert tasks[k].id != tasks[i].id;
      }
    }
  }

  /** `tasks.filter(task => task.id !== id)`. */
  function WithoutTask(tasks: seq<Task>, id: int): (r: seq<Task>)
    ensures |r| <= |tasks|
    ensures forall t :: t in r <==> t in tasks && t.id != id
  {
    if tasks == [] then []
    else
      var rest := WithoutTask(tasks[1..], id);
      assert forall t :: t in tasks <==> t == tasks[0] || t in tasks[1..];
      if tasks[0].id == id then rest else [tasks[0]] + rest
  }

  /** Deleting distributes over concatenation, so the remaining tasks keep their order. */
  lemma {:induction false} WithoutTaskConcat(a: seq<Task>, b: seq<Task>, id: int)
    ensures WithoutTask(a + b, id) == WithoutTask(a, id) + WithoutTask(b, id)
    decreases |a|
  {
    if a != [] {
      assert (a + b)[1..] == a[1..] + b;
      WithoutTaskConcat(a[1..], b, id);
    } else {
      assert a + b == b;
    }
  }

  /** A list without that id is left as it is; in particular deleting twice is deleting once. */
  lemma {:induction false} WithoutAbsentTask(tasks: seq<Task>, id: int)
    requires forall k :: 0 <= k < |tasks| ==> tasks[k].id != id
    ensures WithoutTask(tasks, id) == tasks
    ensures WithoutTask(WithoutTask(tasks, id), id) == tasks
    decreases |tasks|
  {
    if tasks != [] {
      WithoutAbsentTask(tasks[1..], id);
      assert [tasks[0]] + tasks[1..] == tasks;
    }
  }

  /** Deleting a task that was just added gives back the list as it was before the add,
      when no earlier task had that id. */
  lemma DeleteUndoesAdd(tasks: seq<Task>, t: Task)
    requires forall k :: 0 <= k < |tasks| ==> tasks[k].id != t.id
    ensures WithoutTask(tasks + [t], t.id) == tasks
  {
    WithoutTaskConcat(tasks, [t], t.id);
    WithoutAbsentTask(tasks, t.id);
    assert WithoutTask([t], t.id) == [];
  }

  class TaskList {
    var tasks: seq<Task>
    var newTaskTitle: string

    constructor (fetched: seq<Task>)
      ensures tasks == fetched && newTaskTitle == ""
    {
      tasks := fetched;
      newTaskTitle := "";
    }

    /** The input field's `onChange`. */
    method TitleChanged(value: string)
      modifies this`newTaskTitle
      ensures newTaskTitle == value
    {
      newTaskTitle := value;
    }

    /** `addTask`: a blank title is ignored; a rejected insert changes nothing; otherwise the
        stored row (title as typed, not complete) goes at the end and the input is cleared. */
    method AddTask(newId: int, insertedAt: string, fails: bool)
      modifies this
      ensures AllSpace(old(newTaskTitle)) || fails ==> unchanged(this)
      ensures !AllSpace(old(newTaskTitle)) && !fails ==>
        tasks == old(tasks) + [Task(newId, old(newTaskTitle), false, insertedAt)] && newTaskTitle == ""
    {
      TrimSpec(newTaskTitle);
      if Trim(newTaskTitle) == "" {
        return;
      }
      if fails {
        return;
      }
      tasks := tasks + [Task(newId, newTaskTitle, false, insertedAt)];
      newTaskTitle := "";
    }

    /** `toggleTask`: once the store accepts the update, the tasks with that id take the
        negation of the flag passed in. */
    method ToggleTask(id: int, isComplete: bool, fails: bool)
      modifies this`tasks
      ensures tasks == if fails then old(tasks) else Toggled(old(tasks), id, isComplete)
    {
      if !fails {
        tasks := Toggled(tasks, id, isComplete);
      }
    }

    /** `deleteTask`: once the store accepts the delete, the tasks with that id are gone. */
    method DeleteTask(id: int, fails: bool)
      modifies this`tasks
      ensures tasks == if fails then old(tasks) else WithoutTask(old(tasks), id)
    {
      if !fails {
        tasks := WithoutTask(tasks, id);
      }
    }
  }
}
