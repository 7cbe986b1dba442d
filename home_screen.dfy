/** The home screen's state: the ordered `lists` and the `newListTitle` input, with the
    handlers that replace them. */
module HomeScreen {
  import opened Entities
  import Text
  import ListOps

  class ListStore {
    var lists: seq<TodoList>
    var newListTitle: string

    /** `useState` seeds: the three built-in lists and an empty input. */
    constructor ()
      ensures lists == ListOps.InitialLists() && newListTitle == ""
      ensures ListOps.UniqueListIds(lists)
    {
      lists := ListOps.InitialLists();
      newListTitle := "";
    }

    /** `setNewListTitle`, wired to the input's `onChangeText`: any text, unvalidated. */
    method SetNewListTitle(text: string)
      modifies this`newListTitle
      ensures newListTitle == text
    {
      newListTitle := text;
    }

    /** `addList`: a blank input changes nothing; otherwise one list with the caller's id,
        the untrimmed input as title and no tasks is appended, and the input is cleared.
        The id stands for `Date.now().toString()` and is not checked for freshness, so
        uniqueness survives only when the id is new. */
    method AddList(freshId: string)
      modifies this
      ensures Text.IsBlank(old(newListTitle)) ==>
                lists == old(lists) && newListTitle == old(newListTitle)
      ensures !Text.IsBlank(old(newListTitle)) ==>
                lists == ListOps.AppendList(old(lists), freshId, old(newListTitle)) && newListTitle == ""
      ensures (ListOps.UniqueListIds(old(lists)) && forall l :: l in old(lists) ==> l.id != freshId) ==>
                ListOps.UniqueListIds(lists)
    {
      Text.TrimEmptyIffBlank(newListTitle);
      if Text.Trim(newListTitle) == "" {
        return;
      }
      ListOps.AppendListUniqueIff(lists, freshId, newListTitle);
      lists := ListOps.AppendList(lists, freshId, newListTitle);
      newListTitle := "";
    }

    /** `removeList`: keeps exactly the lists with another id, in order. */
    method RemoveList(id: string)
      modifies this`lists
      ensures lists == ListOps.RemoveList(old(lists), id)
      ensures |lists| <= |old(lists)|
      ensures ListOps.UniqueListIds(old(lists)) ==> ListOps.UniqueListIds(lists)
    {
      if ListOps.UniqueListIds(lists) {
        ListOps.RemoveListKeepsUnique(lists, id);
      }
      lists := ListOps.RemoveList(lists, id);
    }

    /** `updateListTasks(id, updatedTasks)`: the callback handed to the task screen. Only the
        `tasks` of the lists with that id change; ids, titles, order and every other list
        stay as they were. Its declared parameters are `(id, updatedTasks)`, so the title
        the task screen passes as a third argument is dropped. */
    method UpdateListTasks(id: string, updatedTasks: seq<Task>)
      modifies this`lists
      ensures lists == ListOps.UpdateTasks(old(lists), id, updatedTasks)
      ensures ListOps.UniqueListIds(old(lists)) ==> ListOps.UniqueListIds(lists)
    {
      if ListOps.UniqueListIds(lists) {
        ListOps.UpdateTasksKeepsUnique(lists, id, updatedTasks);
      }
      lists := ListOps.UpdateTasks(lists, id, updatedTasks);
    }
  }
}
