/** The task screen's state: a working copy of one list's `tasks` and `title`, the
    `newTask` input and the edit fields, with the handlers that update them and push the
    result back through the home screen's `updateListTasks`. */
module TodoScreen {
  import opened Entities
  import opened Wrappers
  import Text
  import TaskOps
  import ListOps
  import HomeScreen

  class TaskSession {
    /** `list.id` of the list the screen was opened on. */
    const listId: string
    /** The owner of the `updateListTasks` callback passed in the navigation parameters. */
    const parent: HomeScreen.ListStore
    var tasks: seq<Task>
    var title: string
    var newTask: string
    var editingTaskId: Option<string>
    var editedTaskText: string

    /** The edit fields read as a two-state machine. */
    function EditMode(): EditState
      reads this
    {
      match editingTaskId
      case None => Idle
      case Some(id) => Editing(id, editedTaskText)
    }

    /** The home screen's entry for this list holds the session's tasks. */
    ghost predicate Synced()
      reads this, parent
    {
      forall l :: l in parent.lists && l.id == listId ==> l.tasks == tasks
    }

    /** The screen opens on `list`: `tasks` and `title` are copies of the list's, the inputs
        are empty and no task is being edited. The home screen is not touched. */
    constructor (list: TodoList, parent: HomeScreen.ListStore)
      ensures listId == list.id && this.parent == parent
      ensures tasks == list.tasks && title == list.title
      ensures newTask == "" && editingTaskId == None && editedTaskText == ""
      ensures EditMode() == Idle
    {
      listId := list.id;
      this.parent := parent;
      tasks := list.tasks;
      title := list.title;
      newTask := "";
      editingTaskId := None;
      editedTaskText := "";
    }

    /** The `useEffect` on `[tasks]` (and the title's `onBlur`): calls
        `updateListTasks(list.id, tasks, title)`, whose handler keeps only the first two
        arguments. Afterwards the home screen's entry for this list holds `tasks`. */
    method Push()
      modifies parent`lists
      ensures parent.lists == ListOps.UpdateTasks(old(parent.lists), listId, tasks)
      ensures Synced()
    {
      parent.UpdateListTasks(listId, tasks);
      forall l | l in parent.lists && l.id == listId ensures l.tasks == tasks {
        var i :| 0 <= i < |parent.lists| && parent.lists[i] == l;
      }
    }

    /** `setNewTask`, wired to the new-task input's `onChangeText`. */
    method SetNewTask(text: string)
      modifies this`newTask
      ensures newTask == text
    {
      newTask := text;
    }

    /** `addTask`: a blank input changes nothing and pushes nothing; otherwise one task with
        the caller's id, the untrimmed input as text and `completed` false is appended, the
        input is cleared and the new array is pushed. */
    method AddTask(freshId: string)
      modifies this`tasks, this`newTask, parent`lists
      ensures Text.IsBlank(old(newTask)) ==>
                tasks == old(tasks) && newTask == old(newTask) && parent.lists == old(parent.lists)
      ensures !Text.IsBlank(old(newTask)) ==>
                && tasks == TaskOps.AppendTask(old(tasks), freshId, old(newTask))
                && newTask == ""
                && parent.lists == ListOps.UpdateTasks(old(parent.lists), listId, tasks)
                && Synced()
      ensures (TaskOps.UniqueTaskIds(old(tasks)) && forall t :: t in old(tasks) ==> t.id != freshId) ==>
                TaskOps.UniqueTaskIds(tasks)
    {
      Text.TrimEmptyIffBlank(newTask);
      if Text.Trim(newTask) == "" {
        return;
      }
      TaskOps.AppendTaskUniqueIff(tasks, freshId, newTask);
      tasks := TaskOps.AppendTask(tasks, freshId, newTask);
      newTask := "";
      Push();
    }

    /** `removeTask`: keeps exactly the tasks with another id, in order, and pushes. */
    method RemoveTask(id: string)
      modifies this`tasks, parent`lists
      ensures tasks == TaskOps.RemoveTask(old(tasks), id)
      ensures parent.lists == ListOps.UpdateTasks(old(parent.lists), listId, tasks) && Synced()
      ensures TaskOps.UniqueTaskIds(old(tasks)) ==> TaskOps.UniqueTaskIds(tasks)
    {
      if TaskOps.UniqueTaskIds(tasks) {
        TaskOps.RemoveTaskKeepsUnique(tasks, id);
      }
      tasks := TaskOps.RemoveTask(tasks, id);
      Push();
    }

    /** `toggleTask`: flips `completed` on the tasks with that id, and pushes. */
    method ToggleTask(id: string)
      modifies this`tasks, parent`lists
      ensures tasks == TaskOps.ToggleTask(old(tasks), id)
      ensures parent.lists == ListOps.UpdateTasks(old(parent.lists), listId, tasks) && Synced()
      ensures TaskOps.UniqueTaskIds(old(tasks)) ==> TaskOps.UniqueTaskIds(tasks)
    {
      if TaskOps.UniqueTaskIds(tasks) {
        TaskOps.ToggleKeepsUnique(tasks, id);
      }
      tasks := TaskOps.ToggleTask(tasks, id);
      Push();
    }

    /** `startEditing` (long press): enters edit mode for `id` with `text` in the buffer.
        An edit already in progress is dropped without being saved; `tasks` is untouched. */
    method StartEditing(id: string, text: string)
      modifies this`editingTaskId, this`editedTaskText
      ensures editingTaskId == Some(id) && editedTaskText == text
      ensures EditMode() == Editing(id, text)
    {
      editingTaskId := Some(id);
      editedTaskText := text;
    }

    /** `setEditedTaskText`, wired to the edit input's `onChangeText`. */
    method SetEditedTaskText(text: string)
      modifies this`editedTaskText
      ensures editedTaskText == text
      ensures EditMode().Idle? == old(EditMode()).Idle?
      ensures EditMode().Editing? ==> EditMode() == Editing(old(EditMode()).taskId, text)
    {
      editedTaskText := text;
    }

    /** `confirmEdit`: the task being edited takes the buffer as its text, unchecked; with no
        task being edited the contents stay the same. Edit mode ends (the buffer keeps its
        text) and the new array is pushed. */
    method ConfirmEdit()
      modifies this`tasks, this`editingTaskId, parent`lists
      ensures tasks == TaskOps.ConfirmedTasks(old(tasks), old(editingTaskId), editedTaskText)
      ensures old(editingTaskId).None? ==> tasks == old(tasks)
      ensures editingTaskId == None && EditMode() == Idle
      ensures parent.lists == ListOps.UpdateTasks(old(parent.lists), listId, tasks) && Synced()
      ensures TaskOps.UniqueTaskIds(old(tasks)) ==> TaskOps.UniqueTaskIds(tasks)
    {
      if editingTaskId.Some? && TaskOps.UniqueTaskIds(tasks) {
        TaskOps.EditKeepsUnique(tasks, editingTaskId.value, editedTaskText);
      }
      tasks := TaskOps.ConfirmedTasks(tasks, editingTaskId, editedTaskText);
      editingTaskId := None;
      Push();
    }

    /** `setTitle`, wired to the title input's `onChangeText`: any text, even empty, and no
        push of its own. */
    method SetTitle(text: string)
      modifies this`title
      ensures title == text
    {
      title := text;
    }

    /** The title input's `onBlur`: pushes the current state. The handler drops the title,
        so every list in the home screen keeps its title. */
    method BlurTitle()
      modifies parent`lists
      ensures parent.lists == ListOps.UpdateTasks(old(parent.lists), listId, tasks) && Synced()
      ensures |parent.lists| == |old(parent.lists)|
      ensures forall i :: 0 <= i < |parent.lists| ==> parent.lists[i].title == old(parent.lists)[i].title
    {
      Push();
    }
  }
}
