/** The task list of a folder (frontend/src/components/TasksView.js):
    the priority and status filters and the three counters above the
    list. */
module TasksView {
  import opened Store
  import opened Filtering

  /** filteredTasks' test: a priority filter other than 'all' keeps only
      that priority; the status filter 'pending' drops completed tasks,
      'completed' drops incomplete ones, and any other value keeps both. */
  predicate Shown(t: Task, priorityFilter: string, statusFilter: string)
  {
    if priorityFilter != "all" && t.priority != priorityFilter then false
    else if statusFilter == "pending" && t.completed then false
    else if statusFilter == "completed" && !t.completed then false
    else true
  }

  function ShownBy(priorityFilter: string, statusFilter: string): Task -> bool
  {
    t => Shown(t, priorityFilter, statusFilter)
  }

  function FilteredTasks(tasks: seq<Task>, priorityFilter: string, statusFilter: string): seq<Task>
  {
    Filter(tasks, ShownBy(priorityFilter, statusFilter))
  }

  /** The shown tasks are the tasks passing both filters, as a subsequence
      of the folder's list in its own order. */
  lemma FilteredTasksSpec(tasks: seq<Task>, priorityFilter: string, statusFilter: string)
    ensures var r, pos := FilteredTasks(tasks, priorityFilter, statusFilter), KeptPositions(tasks, ShownBy(priorityFilter, statusFilter));
            && |pos| == |r|
            && (forall k :: 0 <= k < |pos| ==> pos[k] < |tasks| && r[k] == tasks[pos[k]])
            && (forall k, l :: 0 <= k < l < |pos| ==> pos[k] < pos[l])
            && (forall i :: 0 <= i < |tasks| ==>
                  (i in pos <==>
                     (priorityFilter == "all" || tasks[i].priority == priorityFilter)
                     && (statusFilter == "pending" ==> !tasks[i].completed)
                     && (statusFilter == "completed" ==> tasks[i].completed)))
  {
    FilterIsSubsequence(tasks, ShownBy(priorityFilter, statusFilter));
  }

  /** With both filters at 'all' the whole list is shown. */
  lemma ShowAll(tasks: seq<Task>)
    ensures FilteredTasks(tasks, "all", "all") == tasks
  {
    FilterAll(tasks, ShownBy("all", "all"));
  }

  predicate IsDone(t: Task)
  {
    t.completed
  }

  predicate IsOpen(t: Task)
  {
    !t.completed
  }

  /** The counters: all tasks, the completed ones, and the rest. */
  datatype Counts = Counts(total: nat, completed: nat, pending: int)

  function TaskCounts(tasks: seq<Task>): (c: Counts)
  {
    var completed := |Filter(tasks, IsDone)|;
    Counts(|tasks|, completed, |tasks| - completed)
  }

  /** The 'pending' and 'completed' filters under a priority filter show
      the tasks of that priority split in two. */
  lemma StatusFiltersSplit(tasks: seq<Task>, priorityFilter: string)
    ensures |FilteredTasks(tasks, priorityFilter, "pending")| + |FilteredTasks(tasks, priorityFilter, "completed")|
            == |FilteredTasks(tasks, priorityFilter, "all")|
  {
    var all := ShownBy(priorityFilter, "all");
    FilterFilter(tasks, all, IsOpen, ShownBy(priorityFilter, "pending"));
    FilterFilter(tasks, all, IsDone, ShownBy(priorityFilter, "completed"));
    FilterSplits(Filter(tasks, all), IsDone, IsOpen);
  }

  /** The counters agree with the lists the status buttons show: the
      completed count is the 'completed' list, the pending count is the
      'pending' list, and the two add up to the total. */
  lemma CountsMatchFilters(tasks: seq<Task>)
    ensures TaskCounts(tasks).total == |tasks|
    ensures TaskCounts(tasks).completed == |FilteredTasks(tasks, "all", "completed")|
    ensures TaskCounts(tasks).pending == |FilteredTasks(tasks, "all", "pending")|
    ensures TaskCounts(tasks).pending >= 0
  {
    FilterSameTest(tasks, IsDone, ShownBy("all", "completed"));
    FilterSameTest(tasks, IsOpen, ShownBy("all", "pending"));
    FilterSplits(tasks, IsDone, IsOpen);
  }
}
