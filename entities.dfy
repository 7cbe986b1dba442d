/** The values the two screens store in their state. */
module Entities {
  /** A to-do item, `{ id, text, completed }`. */
  datatype Task = Task(id: string, text: string, completed: bool)

  /** A named list of tasks, `{ id, title, tasks }`. */
  datatype TodoList = TodoList(id: string, title: string, tasks: seq<Task>)

  /** The task screen's edit mode as a two-state machine: no task is being edited, or
      one task is, with the text typed so far. */
  datatype EditState = Idle | Editing(taskId: string, buffer: string)
}
