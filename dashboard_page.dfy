/** frontend/src/pages/Dashboard.jsx: the four counters computed from the task list. */
module DashboardPage {
  import opened Models
  import opened Seqs

  datatype Stats = Stats(total: int, completed: int, pending: int, highPriority: int)

  /**
   * fetchStats: the number of tasks, of Completed tasks, the difference (which is the
   * number of tasks in the other three statuses) and the number of High-priority tasks.
   */
  function FetchStats(tasks: seq<Doc<Task>>): (r: Stats)
    ensures r.total == |tasks|
    ensures r.completed == |Positions(tasks, StatusIs(Completed))|
    ensures r.highPriority == |Positions(tasks, PriorityIs(High))|
    ensures 0 <= r.completed <= r.total && 0 <= r.highPriority <= r.total
    ensures r.pending == r.total - r.completed
    ensures r.pending == |Matching(tasks, StatusIs(ToDo))| + |Matching(tasks, StatusIs(InProgress))|
                       + |Matching(tasks, StatusIs(Review))|
    ensures tasks == [] ==> r == Stats(0, 0, 0, 0)
  {
    StatusPartition(tasks);
    MatchingCount(tasks, StatusIs(Completed));
    MatchingCount(tasks, PriorityIs(High));
    var total := |tasks|;
    var completed := |Matching(tasks, StatusIs(Completed))|;
    var pending := total - completed;
    var highPriority := |Matching(tasks, PriorityIs(High))|;
    Stats(total, completed, pending, highPriority)
  }
}
