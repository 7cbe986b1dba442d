/** A nullable value: the screens keep `null` in `editingTaskId` when no task is being edited. */
module Wrappers {
  datatype Option<+T> = None | Some(value: T)
}
