/** The task list, labels and dashboard counts that script.js derives from
    its cached `tasks` array: `displayTasks` (filter by project, filter by
    status, sort), `statusColor`, `formatStatus` and `updateDashboardSummary`.
    Every operation here is a function of the cache and the three selections,
    so none of them can change the cache. */
module TaskView {
  import opened Common
  import opened Text

  // ---------------------------------------------------------------------------
  // Filtering
  // ---------------------------------------------------------------------------

  /** `Array.prototype.filter`: keeps, in order, the elements that satisfy
      `keep`; every kept element occurs as often as in `s`, every other one
      not at all. */
  function Filter(s: seq<JsTask>, keep: JsTask -> bool): (r: seq<JsTask>)
    ensures |r| <= |s|
    ensures forall x :: multiset(r)[x] == if keep(x) then multiset(s)[x] else 0
  {
    if s == [] then []
    else
      var rest := Filter(s[1..], keep);
      assert s == [s[0]] + s[1..];
      if keep(s[0]) then [s[0]] + rest else rest
  }

  /** `filter` keeps the input's order: filtering a concatenation filters each
      part and concatenates the results (together with the multiset clause
      of `Filter` on one-element inputs, this fixes the output). */
  lemma {:induction false} FilterKeepsOrder(a: seq<JsTask>, b: seq<JsTask>, keep: JsTask -> bool)
    ensures Filter(a + b, keep) == Filter(a, keep) + Filter(b, keep)
  {
    if a == [] {
      assert a + b == b;
    } else {
      assert (a + b)[0] == a[0] && (a + b)[1..] == a[1..] + b;
      FilterKeepsOrder(a[1..], b, keep);
    }
  }

  /** `t.project && t.project.id == projectId`: the task has a project whose
      id is loosely equal to the selected filter value. */
  predicate ProjectMatches(t: JsTask, projectFilter: string)
  {
    t.project.Some? && LooseEquals(t.project.value.id, projectFilter)
  }

  /** Whether `displayTasks` shows a task under the two filter selections; an
      empty selection ("All") keeps every task. */
  predicate Shown(t: JsTask, projectFilter: string, statusFilter: string)
  {
    && (projectFilter == "" || ProjectMatches(t, projectFilter))
    && (statusFilter == "" || t.status == statusFilter)
  }

  /** The list after both filters of `displayTasks`, before sorting. */
  function FilteredTasks(tasks: seq<JsTask>, projectFilter: string, statusFilter: string): (r: seq<JsTask>)
    ensures forall t :: multiset(r)[t] == if Shown(t, projectFilter, statusFilter) then multiset(tasks)[t] else 0
  {
    var byProject := if projectFilter != "" then Filter(tasks, (t: JsTask) => ProjectMatches(t, projectFilter)) else tasks;
    if statusFilter != "" then Filter(byProject, (t: JsTask) => t.status == statusFilter) else byProject
  }

  // ---------------------------------------------------------------------------
  // Stable sorting
  // ---------------------------------------------------------------------------

  /** The key `displayTasks` compares: the title when the sort option is
      `'title'`, otherwise `t.dueDate || ''`. */
  function SortKey(t: JsTask, sort: string): string
  {
    if sort == "title" then t.title else OrEmpty(t.dueDate)
  }

  /** Every element's key precedes or equals every later element's key. */
  predicate Sorted(s: seq<JsTask>, sort: string)
  {
    forall i, j | 0 <= i < j < |s| :: LexLeq(SortKey(s[i], sort), SortKey(s[j], sort))
  }

  /** Places `x` before the first element whose key is not smaller than its
      own, so `x` ends up ahead of every element with an equal key. */
  function Insert(x: JsTask, s: seq<JsTask>, sort: string): seq<JsTask>
  {
    if s == [] || LexLeq(SortKey(x, sort), SortKey(s[0], sort)) then [x] + s
    else [s[0]] + Insert(x, s[1..], sort)
  }

  /** `Array.prototype.sort` with a comparator on `SortKey`: a stable sort,
      here an insertion sort that inserts each element into the sorted rest. */
  function SortTasks(s: seq<JsTask>, sort: string): seq<JsTask>
  {
    if s == [] then [] else Insert(s[0], SortTasks(s[1..], sort), sort)
  }

  lemma {:induction false} InsertPermutes(x: JsTask, s: seq<JsTask>, sort: string)
    ensures multiset(Insert(x, s, sort)) == multiset(s) + multiset{x}
  {
    if s != [] && !LexLeq(SortKey(x, sort), SortKey(s[0], sort)) {
      InsertPermutes(x, s[1..], sort);
      assert s == [s[0]] + s[1..];
    }
  }

  /** Sorting only reorders: the result holds the same tasks, each as often. */
  lemma {:induction false} SortPermutes(s: seq<JsTask>, sort: string)
    ensures multiset(SortTasks(s, sort)) == multiset(s)
  {
    if s != [] {
      SortPermutes(s[1..], sort);
      InsertPermutes(s[0], SortTasks(s[1..], sort), sort);
      assert s == [s[0]] + s[1..];
    }
  }

  /** Every key in `s` is at least `k`. */
  predicate LowerBound(k: string, s: seq<JsTask>, sort: string)
  {
    forall j | 0 <= j < |s| :: LexLeq(k, SortKey(s[j], sort))
  }

  lemma ConsSorted(y: JsTask, s: seq<JsTask>, sort: string)
    requires Sorted(s, sort) && LowerBound(SortKey(y, sort), s, sort)
    ensures Sorted([y] + s, sort)
  {
    var r := [y] + s;
    forall i, j | 0 <= i < j < |r| ensures LexLeq(SortKey(r[i], sort), SortKey(r[j], sort)) {
      assert r[j] == s[j - 1];
      if i > 0 { assert r[i] == s[i - 1]; }
    }
  }

  lemma {:induction false} InsertLowerBound(k: string, x: JsTask, s: seq<JsTask>, sort: string)
    requires LexLeq(k, SortKey(x, sort)) && LowerBound(k, s, sort)
    ensures LowerBound(k, Insert(x, s, sort), sort)
  {
    if s != [] && !LexLeq(SortKey(x, sort), SortKey(s[0], sort)) {
      InsertLowerBound(k, x, s[1..], sort);
      var r := [s[0]] + Insert(x, s[1..], sort);
      forall j | 0 <= j < |r| ensures LexLeq(k, SortKey(r[j], sort)) {
        if j > 0 { assert r[j] == Insert(x, s[1..], sort)[j - 1]; }
      }
    }
  }

  lemma {:induction false} InsertSorted(x: JsTask, s: seq<JsTask>, sort: string)
    requires Sorted(s, sort)
    ensures Sorted(Insert(x, s, sort), sort)
  {
    var kx := SortKey(x, sort);
    if s == [] {
    } else if LexLeq(kx, SortKey(s[0], sort)) {
      forall j | 0 <= j < |s| ensures LexLeq(kx, SortKey(s[j], sort)) {
        if j > 0 { LexLeqTransitive(kx, SortKey(s[0], sort), SortKey(s[j], sort)); }
      }
      ConsSorted(x, s, sort);
    } else {
      var k0 := SortKey(s[0], sort);
      LexLeqTotal(kx, k0);
      assert Sorted(s[1..], sort) by {
        forall i, j | 0 <= i < j < |s[1..]| ensures LexLeq(SortKey(s[1..][i], sort), SortKey(s[1..][j], sort)) {
          assert s[1..][i] == s[i + 1] && s[1..][j] == s[j + 1];
        }
      }
      assert LowerBound(k0, s[1..], sort) by {
        forall j | 0 <= j < |s[1..]| ensures LexLeq(k0, SortKey(s[1..][j], sort)) {
          assert s[1..][j] == s[j + 1];
        }
      }
      InsertSorted(x, s[1..], sort);
      InsertLowerBound(k0, x, s[1..], sort);
      ConsSorted(s[0], Insert(x, s[1..], sort), sort);
    }
  }

  /** The result of sorting is in ascending key order. */
  lemma {:induction false} SortSorted(s: seq<JsTask>, sort: string)
    ensures Sorted(SortTasks(s, sort), sort)
  {
    if s != [] {
      SortSorted(s[1..], sort);
      InsertSorted(s[0], SortTasks(s[1..], sort), sort);
    }
  }

  /** The tasks of `s` whose key is `k`, in their order in `s`. */
  function WithKey(s: seq<JsTask>, sort: string, k: string): seq<JsTask>
  {
    if s == [] then []
    else (if SortKey(s[0], sort) == k then [s[0]] else []) + WithKey(s[1..], sort, k)
  }

  lemma {:induction false} InsertWithKey(x: JsTask, s: seq<JsTask>, sort: string, k: string)
    ensures WithKey(Insert(x, s, sort), sort, k)
         == (if SortKey(x, sort) == k then [x] else []) + WithKey(s, sort, k)
  {
    var kx := SortKey(x, sort);
    var xPart := if kx == k then [x] else [];
    if s == [] || LexLeq(kx, SortKey(s[0], sort)) {
      var r := [x] + s;
      assert r[0] == x && r[1..] == s;
      assert WithKey(r, sort, k) == xPart + WithKey(s, sort, k);
    } else {
      LexLeqReflexive(kx);
      var s0Part := if SortKey(s[0], sort) == k then [s[0]] else [];
      var tail := Insert(x, s[1..], sort);
      InsertWithKey(x, s[1..], sort, k);
      var r := [s[0]] + tail;
      assert r[0] == s[0] && r[1..] == tail;
      assert WithKey(r, sort, k) == s0Part + WithKey(tail, sort, k);
      assert WithKey(s, sort, k) == s0Part + WithKey(s[1..], sort, k);
      assert kx == k ==> s0Part == [];
    }
  }

  /** Stability: tasks with equal keys keep their relative order, i.e. for
      every key the tasks carrying it appear in the same order before and
      after sorting. */
  lemma {:induction false} SortStable(s: seq<JsTask>, sort: string, k: string)
    ensures WithKey(SortTasks(s, sort), sort, k) == WithKey(s, sort, k)
  {
    if s != [] {
      SortStable(s[1..], sort, k);
      InsertWithKey(s[0], SortTasks(s[1..], sort), sort, k);
    }
  }

  // ---------------------------------------------------------------------------
  // displayTasks
  // ---------------------------------------------------------------------------

  /** The list `displayTasks` renders: a copy of the cache, filtered by
      project and by status, then sorted. It holds exactly the shown tasks of
      the cache, each as often as in the cache, in ascending key order. */
  function DisplayTasks(tasks: seq<JsTask>, projectFilter: string, statusFilter: string, sort: string): (r: seq<JsTask>)
    ensures forall t :: multiset(r)[t] == if Shown(t, projectFilter, statusFilter) then multiset(tasks)[t] else 0
    ensures Sorted(r, sort)
  {
    var filtered := FilteredTasks(tasks, projectFilter, statusFilter);
    SortPermutes(filtered, sort);
    SortSorted(filtered, sort);
    SortTasks(filtered, sort)
  }

  /** Selecting the tasks with one key commutes with filtering. */
  lemma {:induction false} FilterWithKey(s: seq<JsTask>, keep: JsTask -> bool, sort: string, k: string)
    ensures WithKey(Filter(s, keep), sort, k) == Filter(WithKey(s, sort, k), keep)
  {
    if s != [] {
      var x, rest := s[0], s[1..];
      FilterWithKey(rest, keep, sort, k);
      var head := if SortKey(x, sort) == k then [x] else [];
      FilterKeepsOrder(head, WithKey(rest, sort, k), keep);
      assert [x][1..] == [];
      assert Filter(head, keep) == if SortKey(x, sort) == k && keep(x) then [x] else [];
      if keep(x) {
        var r := [x] + Filter(rest, keep);
        assert r[0] == x && r[1..] == Filter(rest, keep);
        assert WithKey(r, sort, k) == head + WithKey(Filter(rest, keep), sort, k);
      }
    }
  }

  /** Stability as the page shows it: the rendered tasks with key `k` are the
      cache's tasks with key `k` that pass both filters, in the order the
      cache holds them. */
  lemma DisplayStable(tasks: seq<JsTask>, projectFilter: string, statusFilter: string, sort: string, k: string)
    ensures WithKey(DisplayTasks(tasks, projectFilter, statusFilter, sort), sort, k)
         == FilteredTasks(WithKey(tasks, sort, k), projectFilter, statusFilter)
  {
    SortStable(FilteredTasks(tasks, projectFilter, statusFilter), sort, k);
    var byProject := (t: JsTask) => ProjectMatches(t, projectFilter);
    var byStatus := (t: JsTask) => t.status == statusFilter;
    FilterWithKey(tasks, byProject, sort, k);
    var projected := if projectFilter != "" then Filter(tasks, byProject) else tasks;
    FilterWithKey(projected, byStatus, sort, k);
  }

  /** Under any sort option other than `'title'`, every shown task without a
      due date comes before every shown task with a non-empty due date. */
  lemma UndatedFirst(tasks: seq<JsTask>, projectFilter: string, statusFilter: string, sort: string)
    requires sort != "title"
    ensures var r := DisplayTasks(tasks, projectFilter, statusFilter, sort);
      forall i, j | 0 <= i < |r| && 0 <= j < |r| && OrEmpty(r[i].dueDate) == "" && OrEmpty(r[j].dueDate) != "" :: i < j
  {
    var r := DisplayTasks(tasks, projectFilter, statusFilter, sort);
    forall i, j | 0 <= i < |r| && 0 <= j < |r| && OrEmpty(r[i].dueDate) == "" && OrEmpty(r[j].dueDate) != ""
      ensures i < j
    {
      EmptyIsLeast(SortKey(r[j], sort));
    }
  }

  // ---------------------------------------------------------------------------
  // Dashboard counts
  // ---------------------------------------------------------------------------

  /** `tasks.filter(t => t.status === status).length`. */
  function CountStatus(tasks: seq<JsTask>, status: string): (n: nat)
    ensures n <= |tasks|
  {
    if tasks == [] then 0
    else (if tasks[0].status == status then 1 else 0) + CountStatus(tasks[1..], status)
  }

  /** The count is the length of the filtered list the source measures. */
  lemma {:induction false} CountIsFilterLength(tasks: seq<JsTask>, status: string)
    ensures CountStatus(tasks, status) == |Filter(tasks, (t: JsTask) => t.status == status)|
  {
    if tasks != [] {
      CountIsFilterLength(tasks[1..], status);
    }
  }

  /** The four numbers of the dashboard summary (the chart gets the last three). */
  datatype Summary = Summary(total: nat, pending: nat, inProgress: nat, completed: nat)

  /** `updateDashboardSummary`: counts over the whole cache; the filter and
      sort selections are not among its inputs. Each count is the length of
      the cache filtered by strict equality with its status. */
  function DashboardSummary(tasks: seq<JsTask>): (r: Summary)
    ensures r.total == |tasks|
    ensures r.pending == |Filter(tasks, (t: JsTask) => t.status == "PENDING")|
    ensures r.inProgress == |Filter(tasks, (t: JsTask) => t.status == "IN_PROGRESS")|
    ensures r.completed == |Filter(tasks, (t: JsTask) => t.status == "COMPLETED")|
    ensures r.pending <= r.total && r.inProgress <= r.total && r.completed <= r.total
  {
    CountIsFilterLength(tasks, "PENDING");
    CountIsFilterLength(tasks, "IN_PROGRESS");
    CountIsFilterLength(tasks, "COMPLETED");
    Summary(|tasks|, CountStatus(tasks, "PENDING"), CountStatus(tasks, "IN_PROGRESS"), CountStatus(tasks, "COMPLETED"))
  }

  /** A status the dashboard counts. */
  predicate Tracked(s: string) { s == "PENDING" || s == "IN_PROGRESS" || s == "COMPLETED" }

  predicate AllTracked(tasks: seq<JsTask>) { forall i | 0 <= i < |tasks| :: Tracked(tasks[i].status) }

  /** The three tracked counts of a list add up to at most its length, and
      to exactly its length when every status is tracked. */
  lemma {:induction false} StatusCountsAddUp(tasks: seq<JsTask>)
    ensures var n := CountStatus(tasks, "PENDING") + CountStatus(tasks, "IN_PROGRESS") + CountStatus(tasks, "COMPLETED");
      && n <= |tasks|
      && (n == |tasks| <==> AllTracked(tasks))
  {
    if tasks != [] {
      StatusCountsAddUp(tasks[1..]);
      if AllTracked(tasks[1..]) && Tracked(tasks[0].status) {
        forall i | 0 <= i < |tasks| ensures Tracked(tasks[i].status) {
          if i > 0 { assert tasks[i] == tasks[1..][i - 1]; }
        }
      }
      if AllTracked(tasks) {
        forall i | 0 <= i < |tasks[1..]| ensures Tracked(tasks[1..][i].status) {
          assert tasks[1..][i] == tasks[i + 1];
        }
      }
    }
  }

  /** The three status counts never exceed the total, and add up to it
      exactly when every cached task has one of the three tracked statuses. */
  lemma SummaryAddsUp(tasks: seq<JsTask>)
    ensures var r := DashboardSummary(tasks);
      && r.pending + r.inProgress + r.completed <= r.total
      && (r.pending + r.inProgress + r.completed == r.total <==> AllTracked(tasks))
  {
    StatusCountsAddUp(tasks);
  }
}
