/** The new `lists` arrays the home screen builds with spread, `filter` and `map`. */
module ListOps {
  import opened Entities
  import Seqs

  /** Two lists carry different ids. */
  predicate DifferentListIds(a: TodoList, b: TodoList) {
    a.id != b.id
  }

  /** No two lists of `lists` share an id: the home screen's `keyExtractor` and the
      id-based updates assume it, and nothing checks it. */
  predicate UniqueListIds(lists: seq<TodoList>) {
    Seqs.Pairwise(lists, DifferentListIds)
  }

  /** The filter predicate of `removeList`: `list => list.id !== id`. */
  function ListIdIsNot(id: string): TodoList -> bool {
    (l: TodoList) => l.id != id
  }

  /** The value `lists` starts with: three empty lists "Travail", "Courses" and "Sport" with
      ids "1", "2" and "3". */
  function InitialLists(): (r: seq<TodoList>)
    ensures |r| == 3 && UniqueListIds(r)
    ensures forall l :: l in r ==> l.tasks == []
  {
    [TodoList("1", "Travail", []), TodoList("2", "Courses", []), TodoList("3", "Sport", [])]
  }

  /** `[...lists, { id, title, tasks: [] }]`, the array `addList` stores. */
  function AppendList(lists: seq<TodoList>, id: string, title: string): (r: seq<TodoList>)
    ensures |r| == |lists| + 1 && r[..|lists|] == lists
    ensures r[|lists|].id == id && r[|lists|].title == title && r[|lists|].tasks == []
  {
    lists + [TodoList(id, title, [])]
  }

  /** `lists.filter(list => list.id !== id)`: exactly the lists with another id. */
  function RemoveList(lists: seq<TodoList>, id: string): (r: seq<TodoList>)
    ensures |r| <= |lists|
    ensures forall l :: l in r <==> l in lists && l.id != id
  {
    Seqs.Filter(lists, ListIdIsNot(id))
  }

  /** `list.id === id ? { ...list, tasks: updatedTasks } : list` */
  function WithTasks(l: TodoList, id: string, tasks: seq<Task>): TodoList {
    if l.id == id then l.(tasks := tasks) else l
  }

  /** `lists.map(...)` in `updateListTasks`: same length and order, every list keeps its id
      and title, each list with the given id now holds `tasks`, and every other list is
      untouched. */
  function UpdateTasks(lists: seq<TodoList>, id: string, tasks: seq<Task>): (r: seq<TodoList>)
    ensures |r| == |lists|
    ensures forall i :: 0 <= i < |r| ==> r[i].id == lists[i].id && r[i].title == lists[i].title
    ensures forall i :: 0 <= i < |r| && lists[i].id == id ==> r[i].tasks == tasks
    ensures forall i :: 0 <= i < |r| && lists[i].id != id ==> r[i] == lists[i]
  {
    seq(|lists|, i requires 0 <= i < |lists| => WithTasks(lists[i], id, tasks))
  }

  /** `addList` keeps list ids unique exactly when the new id is not already taken; the
      screen does not check this. */
  lemma AppendListUniqueIff(lists: seq<TodoList>, id: string, title: string)
    ensures UniqueListIds(AppendList(lists, id, title))
            <==> UniqueListIds(lists) && forall l :: l in lists ==> l.id != id
  {
    Seqs.PairwiseAppend(lists, TodoList(id, title, []), DifferentListIds);
  }

  /** `removeList` with an id no list carries leaves the array equal to before, and only then. */
  lemma RemoveListNoOpIff(lists: seq<TodoList>, id: string)
    ensures RemoveList(lists, id) == lists <==> forall l :: l in lists ==> l.id != id
  {
    Seqs.FilterIdentity(lists, ListIdIsNot(id));
  }

  /** `removeList` keeps the surviving lists in their original order: it distributes over
      any split of the array. */
  lemma RemoveListKeepsOrder(a: seq<TodoList>, b: seq<TodoList>, id: string)
    ensures RemoveList(a + b, id) == RemoveList(a, id) + RemoveList(b, id)
  {
    Seqs.FilterAppend(a, b, ListIdIsNot(id));
  }

  /** `removeList` never creates a duplicate id. */
  lemma RemoveListKeepsUnique(lists: seq<TodoList>, id: string)
    requires UniqueListIds(lists)
    ensures UniqueListIds(RemoveList(lists, id))
  {
    Seqs.FilterPairwise(lists, ListIdIsNot(id), DifferentListIds);
  }

  /** `updateListTasks` leaves the array equal to before exactly when every list with that id
      already holds those tasks; in particular an absent id is a no-op. */
  lemma UpdateTasksNoOpIff(lists: seq<TodoList>, id: string, tasks: seq<Task>)
    ensures UpdateTasks(lists, id, tasks) == lists
            <==> forall l :: l in lists && l.id == id ==> l.tasks == tasks
  {
    var r := UpdateTasks(lists, id, tasks);
    if r == lists {
      forall l | l in lists && l.id == id ensures l.tasks == tasks {
        var i :| 0 <= i < |lists| && lists[i] == l;
        assert r[i].tasks == tasks;
      }
    } else {
      var i :| 0 <= i < |lists| && r[i] != lists[i];
      assert lists[i] in lists && lists[i].id == id && lists[i].tasks != tasks;
    }
  }

  /** A push for the id of the last list, when no earlier list has that id, changes that
      list's tasks and nothing else. */
  lemma UpdateTasksOfLast(lists: seq<TodoList>, l: TodoList, tasks: seq<Task>)
    requires forall m :: m in lists ==> m.id != l.id
    ensures UpdateTasks(lists + [l], l.id, tasks) == lists + [l.(tasks := tasks)]
  {
    var r := UpdateTasks(lists + [l], l.id, tasks);
    forall i | 0 <= i < |lists| ensures r[i] == lists[i] {
      assert (lists + [l])[i] == lists[i] && lists[i] in lists;
    }
  }

  /** Pushes are last-writer-wins: of two updates for the same id only the later one is
      visible. */
  lemma UpdateTasksLastWins(lists: seq<TodoList>, id: string, first: seq<Task>, second: seq<Task>)
    ensures UpdateTasks(UpdateTasks(lists, id, first), id, second) == UpdateTasks(lists, id, second)
  {
    var a := UpdateTasks(UpdateTasks(lists, id, first), id, second);
    var b := UpdateTasks(lists, id, second);
    forall i | 0 <= i < |lists| ensures a[i] == b[i] {
      if lists[i].id == id {
        assert a[i] == lists[i].(tasks := second);
      }
    }
  }

  /** `updateListTasks` never changes which ids occur, so it keeps them unique. */
  lemma UpdateTasksKeepsUnique(lists: seq<TodoList>, id: string, tasks: seq<Task>)
    requires UniqueListIds(lists)
    ensures UniqueListIds(UpdateTasks(lists, id, tasks))
  {
    var r := UpdateTasks(lists, id, tasks);
    forall i, j | 0 <= i < j < |r| ensures DifferentListIds(r[i], r[j]) {
      assert DifferentListIds(lists[i], lists[j]);
    }
  }
}
