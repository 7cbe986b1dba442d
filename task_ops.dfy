/** The new `tasks` arrays the task screen builds with spread, `filter` and `map`. */
module TaskOps {
  import opened Entities
  import opened Wrappers
  import Seqs

  /** Two tasks carry different ids. */
  predicate DifferentTaskIds(a: Task, b: Task) {
    a.id != b.id
  }

  /** No two tasks of `tasks` share an id. The screen relies on this for its `keyExtractor`
      but never checks it. */
  predicate UniqueTaskIds(tasks: seq<Task>) {
    Seqs.Pairwise(tasks, DifferentTaskIds)
  }

  /** The filter predicate of `removeTask`: `task => task.id !== id`. */
  function TaskIdIsNot(id: string): Task -> bool {
    (t: Task) => t.id != id
  }

  /** `[...tasks, task]`, the array `addTask` stores. */
  function AppendTask(tasks: seq<Task>, id: string, text: string): (r: seq<Task>)
    ensures |r| == |tasks| + 1 && r[..|tasks|] == tasks
    ensures r[|tasks|].id == id && r[|tasks|].text == text && !r[|tasks|].completed
  {
    tasks + [Task(id, text, false)]
  }

  /** `tasks.filter(task => task.id !== id)`: exactly the tasks with another id. */
  function RemoveTask(tasks: seq<Task>, id: string): (r: seq<Task>)
    ensures |r| <= |tasks|
    ensures forall t :: t in r <==> t in tasks && t.id != id
  {
    Seqs.Filter(tasks, TaskIdIsNot(id))
  }

  /** `task.id === id ? { ...task, completed: !task.completed } : task` */
  function Toggled(t: Task, id: string): Task {
    if t.id == id then t.(completed := !t.completed) else t
  }

  /** `tasks.map(...)` in `toggleTask`: same ids, texts, length and order; `completed`
      differs at exactly the positions whose id matches. */
  function ToggleTask(tasks: seq<Task>, id: string): (r: seq<Task>)
    ensures |r| == |tasks|
    ensures forall i :: 0 <= i < |r| ==> r[i].id == tasks[i].id && r[i].text == tasks[i].text
    ensures forall i :: 0 <= i < |r| ==> (r[i].completed != tasks[i].completed <==> tasks[i].id == id)
  {
    seq(|tasks|, i requires 0 <= i < |tasks| => Toggled(tasks[i], id))
  }

  /** `task.id === id ? { ...task, text } : task` */
  function Retexted(t: Task, id: string, text: string): Task {
    if t.id == id then t.(text := text) else t
  }

  /** `tasks.map(...)` in `confirmEdit`: same ids, completion flags, length and order; each
      task with the given id now reads `text`, taken as is (no trim, no empty check), and
      every other task is untouched. */
  function EditTaskText(tasks: seq<Task>, id: string, text: string): (r: seq<Task>)
    ensures |r| == |tasks|
    ensures forall i :: 0 <= i < |r| ==> r[i].id == tasks[i].id && r[i].completed == tasks[i].completed
    ensures forall i :: 0 <= i < |r| && tasks[i].id == id ==> r[i].text == text
    ensures forall i :: 0 <= i < |r| && tasks[i].id != id ==> r[i] == tasks[i]
  {
    seq(|tasks|, i requires 0 <= i < |tasks| => Retexted(tasks[i], id, text))
  }

  /** The array `confirmEdit` stores: the map compares every id with `editingTaskId`, so a
      task takes the buffer exactly when `editingTaskId` holds its id. Ids, completion flags,
      length and order are kept; while `editingTaskId` is `null` no task id (a string)
      matches, so the contents are unchanged. */
  function ConfirmedTasks(tasks: seq<Task>, editingTaskId: Option<string>, buffer: string): (r: seq<Task>)
    ensures |r| == |tasks|
    ensures forall i :: 0 <= i < |r| ==> r[i].id == tasks[i].id && r[i].completed == tasks[i].completed
    ensures forall i :: 0 <= i < |r| ==>
              r[i].text == (if editingTaskId == Some(tasks[i].id) then buffer else tasks[i].text)
    ensures editingTaskId.None? ==> r == tasks
  {
    match editingTaskId
    case None => tasks
    case Some(id) => EditTaskText(tasks, id, buffer)
  }

  /** `addTask` keeps ids unique exactly when the new id is not already taken; the screen
      does not check this. */
  lemma AppendTaskUniqueIff(tasks: seq<Task>, id: string, text: string)
    ensures UniqueTaskIds(AppendTask(tasks, id, text))
            <==> UniqueTaskIds(tasks) && forall t :: t in tasks ==> t.id != id
  {
    Seqs.PairwiseAppend(tasks, Task(id, text, false), DifferentTaskIds);
  }

  /** `removeTask` with an id no task carries leaves the array equal to before, and only then. */
  lemma RemoveTaskNoOpIff(tasks: seq<Task>, id: string)
    ensures RemoveTask(tasks, id) == tasks <==> forall t :: t in tasks ==> t.id != id
  {
    Seqs.FilterIdentity(tasks, TaskIdIsNot(id));
  }

  /** `removeTask` keeps the surviving tasks in their original order: it distributes over
      any split of the array. */
  lemma RemoveTaskKeepsOrder(a: seq<Task>, b: seq<Task>, id: string)
    ensures RemoveTask(a + b, id) == RemoveTask(a, id) + RemoveTask(b, id)
  {
    Seqs.FilterAppend(a, b, TaskIdIsNot(id));
  }

  /** Removing the same id twice is removing it once. */
  lemma RemoveTaskIdempotent(tasks: seq<Task>, id: string)
    ensures RemoveTask(RemoveTask(tasks, id), id) == RemoveTask(tasks, id)
  {
    Seqs.FilterIdempotent(tasks, TaskIdIsNot(id));
  }

  /** `removeTask` never creates a duplicate id. */
  lemma RemoveTaskKeepsUnique(tasks: seq<Task>, id: string)
    requires UniqueTaskIds(tasks)
    ensures UniqueTaskIds(RemoveTask(tasks, id))
  {
    Seqs.FilterPairwise(tasks, TaskIdIsNot(id), DifferentTaskIds);
  }

  /** `toggleTask` applied twice with the same id undoes itself. */
  lemma ToggleTwice(tasks: seq<Task>, id: string)
    ensures ToggleTask(ToggleTask(tasks, id), id) == tasks
  {
    var once := ToggleTask(tasks, id);
    var twice := ToggleTask(once, id);
    forall i | 0 <= i < |tasks| ensures twice[i] == tasks[i] {
      assert once[i] == Toggled(tasks[i], id);
    }
  }

  /** `toggleTask` leaves the array equal to before exactly when no task has that id. */
  lemma ToggleNoOpIff(tasks: seq<Task>, id: string)
    ensures ToggleTask(tasks, id) == tasks <==> forall t :: t in tasks ==> t.id != id
  {
    var r := ToggleTask(tasks, id);
    if r == tasks {
      forall t | t in tasks ensures t.id != id {
        var i :| 0 <= i < |tasks| && tasks[i] == t;
        assert r[i].completed == tasks[i].completed;
      }
    }
  }

  /** `toggleTask` never changes which ids occur, so it keeps them unique. */
  lemma ToggleKeepsUnique(tasks: seq<Task>, id: string)
    requires UniqueTaskIds(tasks)
    ensures UniqueTaskIds(ToggleTask(tasks, id))
  {
    var r := ToggleTask(tasks, id);
    forall i, j | 0 <= i < j < |r| ensures DifferentTaskIds(r[i], r[j]) {
      assert DifferentTaskIds(tasks[i], tasks[j]);
    }
  }

  /** `confirmEdit` leaves the array equal to before exactly when every task with the edited
      id already reads the buffer: in particular when the id is absent, or when the buffer
      was left as `startEditing` seeded it from that (sole) task. */
  lemma EditNoOpIff(tasks: seq<Task>, id: string, text: string)
    ensures EditTaskText(tasks, id, text) == tasks
            <==> forall t :: t in tasks && t.id == id ==> t.text == text
  {
    var r := EditTaskText(tasks, id, text);
    if r == tasks {
      forall t | t in tasks && t.id == id ensures t.text == text {
        var i :| 0 <= i < |tasks| && tasks[i] == t;
        assert r[i].text == text;
      }
    } else {
      var i :| 0 <= i < |tasks| && r[i] != tasks[i];
      assert tasks[i] in tasks && tasks[i].id == id && tasks[i].text != text;
    }
  }

  /** `confirmEdit` never changes which ids occur, so it keeps them unique. */
  lemma EditKeepsUnique(tasks: seq<Task>, id: string, text: string)
    requires UniqueTaskIds(tasks)
    ensures UniqueTaskIds(EditTaskText(tasks, id, text))
  {
    var r := EditTaskText(tasks, id, text);
    forall i, j | 0 <= i < j < |r| ensures DifferentTaskIds(r[i], r[j]) {
      assert DifferentTaskIds(tasks[i], tasks[j]);
    }
  }
}
