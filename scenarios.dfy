/** Whole interactions between the two screens, from the home screen's initial state. */
module Scenarios {
  import opened Entities
  import Text
  import TaskOps
  import ListOps
  import HomeScreen
  import TodoScreen

  /** Create the list "Sport", open it, add "Run" and "Swim", tick "Run", rename the list to
      "Fitness" and leave the title field. The home screen then holds the three built-in
      lists followed by the new one, whose tasks are the session's in insertion order; its
      title stays "Sport", because `updateListTasks` drops the title it is passed. */
  method SportScenario(listId: string, runId: string, swimId: string)
    returns (lists: seq<TodoList>, workingTitle: string)
    requires listId != "1" && listId != "2" && listId != "3"
    requires runId != swimId
    ensures |lists| == 4 && lists[..3] == ListOps.InitialLists()
    ensures lists[3] == TodoList(listId, "Sport", [Task(runId, "Run", true), Task(swimId, "Swim", false)])
    ensures workingTitle == "Fitness"
  {
    var store := new HomeScreen.ListStore();
    store.SetNewListTitle("Sport");
    assert !Text.IsWhitespace("Sport"[0]);
    store.AddList(listId);
    ghost var init := ListOps.InitialLists();
    ghost var sport := TodoList(listId, "Sport", []);
    assert store.lists == init + [sport];
    var session := new TodoScreen.TaskSession(store.lists[3], store);
    RunSwimSession(session, runId, swimId);
    ghost var final := session.tasks;
    ListOps.UpdateTasksOfLast(init, sport, final);
    assert store.lists == init + [sport.(tasks := final)];
    session.SetTitle("Fitness");
    session.BlurTitle();
    ListOps.UpdateTasksOfLast(init, sport.(tasks := final), final);
    lists := store.lists;
    workingTitle := session.title;
  }

  /** The task part of the walkthrough above: on a list with no tasks, add "Run" and "Swim"
      and tick "Run". Of the three pushes only the last is visible in the home screen. */
  method RunSwimSession(session: TodoScreen.TaskSession, runId: string, swimId: string)
    requires session.tasks == [] && runId != swimId
    modifies session, session.parent`lists
    ensures session.tasks == [Task(runId, "Run", true), Task(swimId, "Swim", false)]
    ensures session.parent.lists == ListOps.UpdateTasks(old(session.parent.lists), session.listId, session.tasks)
    ensures session.title == old(session.title)
  {
    ghost var home := session.parent.lists;
    session.SetNewTask("Run");
    assert !Text.IsWhitespace("Run"[0]);
    session.AddTask(runId);
    ghost var one := [Task(runId, "Run", false)];
    assert session.tasks == one;

    session.SetNewTask("Swim");
    assert !Text.IsWhitespace("Swim"[0]);
    session.AddTask(swimId);
    ghost var added := [Task(runId, "Run", false), Task(swimId, "Swim", false)];
    assert session.tasks == added;
    ListOps.UpdateTasksLastWins(home, session.listId, one, added);

    session.ToggleTask(runId);
    assert session.tasks == [Task(runId, "Run", true), Task(swimId, "Swim", false)] by {
      assert session.tasks == TaskOps.ToggleTask(added, runId);
    }
    ListOps.UpdateTasksLastWins(home, session.listId, added, session.tasks);
  }

  /** Open one of the built-in lists and add a non-blank task: the push leaves that list in
      the home screen with exactly the new task, not completed, and its id and title as
      they were; the other lists are untouched. */
  method AddTaskRoundTrip(k: nat, freshId: string, text: string) returns (home: seq<TodoList>)
    requires k < 3
    requires !Text.IsBlank(text)
    ensures |home| == 3
    ensures home[k] == ListOps.InitialLists()[k].(tasks := [Task(freshId, text, false)])
    ensures forall i :: 0 <= i < 3 && i != k ==> home[i] == ListOps.InitialLists()[i]
  {
    var store := new HomeScreen.ListStore();
    var session := new TodoScreen.TaskSession(store.lists[k], store);
    session.SetNewTask(text);
    session.AddTask(freshId);
    home := store.lists;
  }

  /** Open the list with id "1" and add the task "old". Confirming an edit whose buffer was
      left as seeded keeps the text; typing "new" before confirming replaces it; confirming
      again with no edit in progress changes nothing. Each confirmation is pushed, so the
      home screen ends with the edited task. */
  method EditScenario(taskId: string)
    returns (unedited: seq<Task>, edited: seq<Task>, idleConfirm: seq<Task>, home: seq<TodoList>)
    ensures unedited == [Task(taskId, "old", false)]
    ensures edited == [Task(taskId, "new", false)]
    ensures idleConfirm == edited
    ensures home == ListOps.UpdateTasks(ListOps.InitialLists(), "1", edited)
    ensures home[0].tasks == edited
  {
    var store := new HomeScreen.ListStore();
    var session := new TodoScreen.TaskSession(store.lists[0], store);
    session.SetNewTask("old");
    assert !Text.IsWhitespace("old"[0]);
    session.AddTask(taskId);
    ghost var added := session.tasks;
    assert added == [Task(taskId, "old", false)];
    unedited, edited, idleConfirm := ConfirmThreeWays(session, taskId);
    home := store.lists;
    ListOps.UpdateTasksLastWins(ListOps.InitialLists(), "1", added, edited);
  }

  /** The edit part of the walkthrough above, on a session whose only task is "old":
      confirm as seeded, confirm after typing "new", confirm with no edit in progress. Of
      the three pushes only the last is visible in the home screen. */
  method ConfirmThreeWays(session: TodoScreen.TaskSession, taskId: string)
    returns (unedited: seq<Task>, edited: seq<Task>, idleConfirm: seq<Task>)
    requires session.tasks == [Task(taskId, "old", false)]
    modifies session, session.parent`lists
    ensures unedited == old(session.tasks)
    ensures edited == [Task(taskId, "new", false)]
    ensures idleConfirm == edited && session.tasks == edited
    ensures session.parent.lists == ListOps.UpdateTasks(old(session.parent.lists), session.listId, edited)
  {
    ghost var home := session.parent.lists;
    ghost var start := session.tasks;
    session.StartEditing(taskId, "old");
    TaskOps.EditNoOpIff(start, taskId, "old");
    session.ConfirmEdit();
    unedited := session.tasks;
    assert unedited == start;

    session.StartEditing(taskId, "old");
    session.SetEditedTaskText("new");
    session.ConfirmEdit();
    edited := session.tasks;
    assert edited == [Task(taskId, "new", false)];
    ListOps.UpdateTasksLastWins(home, session.listId, start, edited);

    session.ConfirmEdit();
    idleConfirm := session.tasks;
    ListOps.UpdateTasksLastWins(home, session.listId, edited, edited);
  }

  /** Start editing one task, type into the buffer, then long-press another task: the typed
      text is dropped without being saved, and confirming edits only the second task. */
  method SwitchEditScenario(firstId: string, secondId: string)
    returns (tasks: seq<Task>)
    requires firstId != secondId
    ensures tasks == [Task(firstId, "a", false), Task(secondId, "b", false)]
  {
    var store := new HomeScreen.ListStore();
    var session := new TodoScreen.TaskSession(store.lists[1], store);
    session.SetNewTask("a");
    assert !Text.IsWhitespace("a"[0]);
    session.AddTask(firstId);
    assert session.tasks == [Task(firstId, "a", false)];
    session.SetNewTask("b");
    assert !Text.IsWhitespace("b"[0]);
    session.AddTask(secondId);
    assert session.tasks == [Task(firstId, "a", false), Task(secondId, "b", false)];
    SwitchThenConfirm(session, firstId, secondId);
    tasks := session.tasks;
  }

  /** The edit part of the walkthrough above: edit the first task, type "typed", switch to
      the second task as seeded, and confirm. The tasks are unchanged. */
  method SwitchThenConfirm(session: TodoScreen.TaskSession, firstId: string, secondId: string)
    requires firstId != secondId
    requires session.tasks == [Task(firstId, "a", false), Task(secondId, "b", false)]
    modifies session, session.parent`lists
    ensures session.tasks == old(session.tasks)
  {
    ghost var start := session.tasks;
    session.StartEditing(firstId, "a");
    session.SetEditedTaskText("typed");
    session.StartEditing(secondId, "b");
    TaskOps.EditNoOpIff(start, secondId, "b");
    session.ConfirmEdit();
  }
}
