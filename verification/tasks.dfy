/**
 The in-memory task list: a module-level list of task names with an operation
 to append, one to remove the first equal entry, and one to read the list.
 The operations are pure functions from the current list to the next list and
 the reply string; `TaskList` wraps them around one mutable list.
 */
module Tasks {

  /** The list after an operation, and the string the operation returns. */
  datatype Reply = Reply(tasks: seq<string>, message: string)

  /** `add_task(task)`: appends the task, duplicates included, and confirms it. */
  function AddTask(tasks: seq<string>, task: string): (r: Reply)
    ensures |r.tasks| == |tasks| + 1
    ensures r.tasks[..|tasks|] == tasks && r.tasks[|tasks|] == task
    ensures multiset(r.tasks) == multiset(tasks) + multiset{task}
    ensures r.message == "Task '" + task + "' added."
  {
    Reply(tasks + [task], "Task '" + task + "' added.")
  }

  /** Position of the first entry equal to `task`, the one `list.remove` deletes. */
  function FirstIndex(tasks: seq<string>, task: string): (i: nat)
    requires task in tasks
    ensures i < |tasks| && tasks[i] == task
    ensures task !in tasks[..i]
  {
    if tasks[0] == task then 0
    else
      assert task in tasks[1..];
      var i := 1 + FirstIndex(tasks[1..], task);
      assert tasks[..i] == [tasks[0]] + tasks[1..][..i - 1];
      i
  }

  /**
   `remove_task(task)`: when the task is listed, deletes its first occurrence only,
   keeping the other entries in their order, and confirms it; otherwise leaves the
   list as it was and answers "Task not found.".
   */
  function RemoveTask(tasks: seq<string>, task: string): (r: Reply)
    ensures task !in tasks ==> r.tasks == tasks && r.message == "Task not found."
    ensures task in tasks ==> r.message == "Task '" + task + "' removed."
    ensures task in tasks ==>
      exists i :: 0 <= i < |tasks| && tasks[i] == task && task !in tasks[..i] && r.tasks == tasks[..i] + tasks[i + 1..]
    ensures task in tasks ==> |r.tasks| == |tasks| - 1 && multiset(r.tasks) == multiset(tasks) - multiset{task}
  {
    if task in tasks then
      var i := FirstIndex(tasks, task);
      assert tasks == tasks[..i] + [task] + tasks[i + 1..];
      Reply(tasks[..i] + tasks[i + 1..], "Task '" + task + "' removed.")
    else
      Reply(tasks, "Task not found.")
  }

  /** Python's `list.remove(x)` read element by element: drop the first `x`, keep the rest. */
  function ListRemove(s: seq<string>, x: string): (r: seq<string>)
    requires x in s
    ensures |r| == |s| - 1
  {
    if s[0] == x then s[1..] else [s[0]] + ListRemove(s[1..], x)
  }

  /** `list.remove` deletes exactly the entry at the first index of the element. */
  lemma {:induction false} ListRemoveAtFirstIndex(s: seq<string>, x: string)
    requires x in s
    ensures ListRemove(s, x) == s[..FirstIndex(s, x)] + s[FirstIndex(s, x) + 1..]
    decreases |s|
  {
    if s[0] != x {
      var rest := s[1..];
      assert x in rest;
      ListRemoveAtFirstIndex(rest, x);
      var j := FirstIndex(rest, x);
      assert FirstIndex(s, x) == j + 1;
      assert s[..j + 1] == [s[0]] + rest[..j];
      assert s[j + 2..] == rest[j + 1..];
    }
  }

  /** The removal performed by `remove_task` is exactly `list.remove`. */
  lemma RemoveTaskIsListRemove(tasks: seq<string>, task: string)
    requires task in tasks
    ensures RemoveTask(tasks, task).tasks == ListRemove(tasks, task)
  {
    ListRemoveAtFirstIndex(tasks, task);
  }

  /** Adding a task that was not listed and then removing it restores the original list. */
  lemma AddThenRemove(tasks: seq<string>, task: string)
    requires task !in tasks
    ensures RemoveTask(AddTask(tasks, task).tasks, task).tasks == tasks
  {
    var added := AddTask(tasks, task).tasks;
    assert FirstIndex(added, task) == |tasks|;
    assert added[..|tasks|] == tasks;
  }

  /** Adding the same task twice lists it twice more; one removal takes away only one of them. */
  lemma DuplicatesKept(tasks: seq<string>, task: string)
    ensures multiset(AddTask(AddTask(tasks, task).tasks, task).tasks)[task] == multiset(tasks)[task] + 2
    ensures task in RemoveTask(AddTask(AddTask(tasks, task).tasks, task).tasks, task).tasks
  {
    var twice := AddTask(AddTask(tasks, task).tasks, task).tasks;
    var r := RemoveTask(twice, task).tasks;
    assert multiset(r)[task] == multiset(tasks)[task] + 1;
  }

  /** The module-level `tasks` list together with the three operations on it. */
  class TaskList {
    var tasks: seq<string>

    /** `tasks = []` */
    constructor()
      ensures tasks == []
    {
      tasks := [];
    }

    /** `add_task` on the shared list. */
    method Add(task: string) returns (message: string)
      modifies this
      ensures tasks == old(tasks) + [task]
      ensures message == "Task '" + task + "' added."
    {
      var r := AddTask(tasks, task);
      tasks, message := r.tasks, r.message;
    }

    /** `remove_task` on the shared list. */
    method Remove(task: string) returns (message: string)
      modifies this
      ensures task !in old(tasks) ==> tasks == old(tasks) && message == "Task not found."
      ensures task in old(tasks) ==> tasks == ListRemove(old(tasks), task) && message == "Task '" + task + "' removed."
    {
      if task in tasks {
        RemoveTaskIsListRemove(tasks, task);
      }
      var r := RemoveTask(tasks, task);
      tasks, message := r.tasks, r.message;
    }

    /** `list_tasks`: returns the current list and, having no `modifies` clause, changes nothing. */
    method List() returns (r: seq<string>)
      ensures r == tasks
    {
      r := tasks;
    }
  }
}
