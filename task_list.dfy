/**
 * The pure parts of the task list screen: the status filter and title
 * search, the four counters, and what the list area shows.
 */
module TaskListView {
  import opened Ascii
  import opened TaskSchema

  /** The filter buttons: "all" or one status. */
  datatype Filter = All | Only(status: Status)

  const NoTasksYet: string := "No tasks yet. Create one to get started!"
  const NoTasksMatch: string := "No tasks match your search or filter."
  const LoadingTasks: string := "Loading tasks..."

  /** `matchesFilter && matchesSearch` for one task. */
  predicate Shows(t: Task, filter: Filter, search: string) {
    && (filter.All? || t.status == filter.status)
    && Contains(ToLower(t.title), ToLower(search))
  }

  /** `a` is `b` with some elements dropped and the rest in their order. */
  ghost predicate IsSubsequence<T>(a: seq<T>, b: seq<T>)
    decreases |b|
  {
    a == [] || (b != [] && ((a[0] == b[0] && IsSubsequence(a[1..], b[1..])) || IsSubsequence(a, b[1..])))
  }

  /** `tasks.filter(...)`: the shown tasks, in their original order. */
  function FilteredTasks(tasks: seq<Task>, filter: Filter, search: string): (r: seq<Task>)
    ensures forall t :: t in r <==> t in tasks && Shows(t, filter, search)
    ensures IsSubsequence(r, tasks)
    ensures |r| <= |tasks|
  {
    if tasks == [] then []
    else
      var rest := FilteredTasks(tasks[1..], filter, search);
      if Shows(tasks[0], filter, search) then [tasks[0]] + rest else rest
  }

  /** With the "all" filter and an empty search every task is shown. */
  lemma {:induction false} EverythingShownByDefault(tasks: seq<Task>)
    ensures FilteredTasks(tasks, All, "") == tasks
  {
    if tasks != [] {
      assert StartsWith(ToLower(tasks[0].title), ToLower(""));
      EverythingShownByDefault(tasks[1..]);
    }
  }

  /** The search ignores case: a term and its lower-case form show the same tasks. */
  lemma {:induction false} SearchIgnoresCase(tasks: seq<Task>, filter: Filter, search: string)
    ensures FilteredTasks(tasks, filter, search) == FilteredTasks(tasks, filter, ToLower(search))
  {
    ToLowerIdempotent(search);
    if tasks != [] {
      assert Shows(tasks[0], filter, search) == Shows(tasks[0], filter, ToLower(search));
      SearchIgnoresCase(tasks[1..], filter, search);
    }
  }

  /** `tasks.filter((t) => t.status === status).length`. */
  function CountStatus(tasks: seq<Task>, status: Status): (n: nat)
    ensures n <= |tasks|
  {
    if tasks == [] then 0
    else (if tasks[0].status == status then 1 else 0) + CountStatus(tasks[1..], status)
  }

  datatype Stats = Stats(total: nat, completed: nat, inProgress: nat, todo: nat)

  /** The four counter cards. */
  function ComputeStats(tasks: seq<Task>): (st: Stats)
    ensures st.total == |tasks|
    ensures st.completed == CountStatus(tasks, Completed)
    ensures st.inProgress == CountStatus(tasks, InProgress)
    ensures st.todo == CountStatus(tasks, Todo)
    ensures st.todo + st.inProgress + st.completed == st.total
  {
    StatusCountsSum(tasks);
    Stats(|tasks|, CountStatus(tasks, Completed), CountStatus(tasks, InProgress), CountStatus(tasks, Todo))
  }

  /** Every task has one of the three statuses, so the three counts add up. */
  lemma {:induction false} StatusCountsSum(tasks: seq<Task>)
    ensures CountStatus(tasks, Todo) + CountStatus(tasks, InProgress) + CountStatus(tasks, Completed) == |tasks|
  {
    if tasks != [] {
      StatusCountsSum(tasks[1..]);
    }
  }

  /** A status counter equals what its filter button shows with an empty search. */
  lemma {:induction false} CountMatchesFilter(tasks: seq<Task>, status: Status)
    ensures CountStatus(tasks, status) == |FilteredTasks(tasks, Only(status), "")|
  {
    if tasks != [] {
      assert StartsWith(ToLower(tasks[0].title), ToLower(""));
      CountMatchesFilter(tasks[1..], status);
    }
  }

  /** What the list area shows. */
  datatype ListArea = Loading(message: string) | EmptyState(message: string) | Items(shown: seq<Task>)

  function Area(loading: bool, tasks: seq<Task>, filter: Filter, search: string): (a: ListArea)
    ensures loading ==> a == Loading(LoadingTasks)
    ensures !loading ==> !a.Loading?
    ensures !loading ==> (a.Items? <==> FilteredTasks(tasks, filter, search) != [])
    ensures a.Items? ==> a.shown == FilteredTasks(tasks, filter, search)
    ensures !loading && a.EmptyState? ==> (a.message == NoTasksYet <==> tasks == [])
    ensures !loading && a.EmptyState? ==> (a.message == NoTasksMatch <==> tasks != [])
  {
    if loading then Loading(LoadingTasks)
    else
      var shown := FilteredTasks(tasks, filter, search);
      if |shown| == 0 then EmptyState(if |tasks| == 0 then NoTasksYet else NoTasksMatch)
      else Items(shown)
  }

  /** An empty collection always shows "No tasks yet", whatever the filter. */
  lemma EmptyCollectionMessage(filter: Filter, search: string)
    ensures Area(false, [], filter, search) == EmptyState(NoTasksYet)
  {
  }
}
