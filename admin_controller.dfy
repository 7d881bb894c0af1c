/** server/controllers/adminController.js: the dashboard figures, the user
    list without passwords, every task newest first, and the per-user task
    counts of the `$group` / `$lookup` / `$unwind` pipeline. The users
    collection is a sequence of records; what models/User.js adds to them
    is not part of this model. */
module AdminController {
  import opened Wrappers
  import opened Requests
  import opened TaskModel
  import opened TaskController

  datatype User = User(id: Id, name: string, email: string, password: string, role: string)

  /** A user as `select('-password')` returns it. */
  datatype PublicUser = PublicUser(id: Id, name: string, email: string, role: string)

  predicate UniqueUserIds(us: seq<User>)
  {
    forall i, j :: 0 <= i < j < |us| ==> us[i].id != us[j].id
  }

  // ---------------------------------------------------------------------
  // Dashboard

  /** The number of tasks created on [from, to). */
  function CountCreatedIn(ts: seq<Task>, from: int, to: int): (n: nat)
    ensures n <= |ts|
    ensures to <= from ==> n == 0
  {
    if ts == [] then 0
    else CountCreatedIn(ts[1..], from, to) + (if from <= ts[0].createdAt < to then 1 else 0)
  }

  /** Two adjacent windows count what the window spanning both counts: they
      share no task and leave none out. */
  lemma {:induction false} CountCreatedSplit(ts: seq<Task>, a: int, b: int, c: int)
    requires a <= b <= c
    ensures CountCreatedIn(ts, a, b) + CountCreatedIn(ts, b, c) == CountCreatedIn(ts, a, c)
  {
    if ts != [] {
      CountCreatedSplit(ts[1..], a, b, c);
    }
  }

  /** Tasks created at or after `from` are outside every window ending
      there. */
  lemma {:induction false} CountCreatedIgnoresLater(ts: seq<Task>, from: int, to: int)
    requires forall t :: t in ts ==> t.createdAt >= to
    ensures CountCreatedIn(ts, from, to) == 0
  {
    if ts != [] {
      assert ts[0] in ts;
      assert forall t :: t in ts[1..] ==> t in ts;
      CountCreatedIgnoresLater(ts[1..], from, to);
    }
  }

  /** The last week [today - 7 days, today) and the week before it
      [today - 14 days, today - 7 days). */
  function SevenDaysAgo(today: int): int { today - 7 * DayMs }

  function FourteenDaysAgo(today: int): int { today - 14 * DayMs }

  function TasksLastWeek(ts: seq<Task>, today: int): nat
  {
    CountCreatedIn(ts, SevenDaysAgo(today), today)
  }

  function TasksPreviousWeek(ts: seq<Task>, today: int): nat
  {
    CountCreatedIn(ts, FourteenDaysAgo(today), SevenDaysAgo(today))
  }

  /** Together the two weeks count exactly the tasks of the last fourteen
      days before today; a task created today is in neither. */
  lemma TwoWeeks(ts: seq<Task>, today: int)
    ensures TasksLastWeek(ts, today) + TasksPreviousWeek(ts, today) == CountCreatedIn(ts, FourteenDaysAgo(today), today)
    ensures forall t: Task :: t.createdAt >= today ==>
      TasksLastWeek([t], today) == 0 && TasksPreviousWeek([t], today) == 0
  {
    CountCreatedSplit(ts, FourteenDaysAgo(today), SevenDaysAgo(today), today);
  }

  /** `(tasksLastWeek / totalUsers).toFixed(2)` as a whole number of
      hundredths, rounding half up; 0 when there are no users. */
  function AverageHundredths(lastWeek: nat, users: nat): (h: nat)
    ensures users == 0 ==> h == 0
    ensures users > 0 ==> 200 * lastWeek - users < 2 * users * h <= 200 * lastWeek + users
  {
    if users == 0 then 0 else (200 * lastWeek + users) / (2 * users)
  }

  datatype StatusCount = StatusCount(status: Status, count: nat)

  /** The number of tasks with status `s`. */
  function CountStatus(ts: seq<Task>, s: Status): (n: nat)
    ensures n >= 1 <==> exists t :: t in ts && t.status == s
  {
    if ts == [] then 0
    else
      assert forall t :: t in ts <==> t == ts[0] || t in ts[1..];
      CountStatus(ts[1..], s) + (if ts[0].status == s then 1 else 0)
  }

  function Entry(ts: seq<Task>, s: Status): (r: seq<StatusCount>)
    ensures |r| <= 1
    ensures forall e :: e in r ==> e.status == s && e.count >= 1 && e.count == CountStatus(ts, s)
    ensures (exists t :: t in ts && t.status == s) ==> r == [StatusCount(s, CountStatus(ts, s))]
  {
    var n := CountStatus(ts, s);
    if n >= 1 then [StatusCount(s, n)] else []
  }

  /** The `$group` on status: one entry per status that occurs, with its
      count (the pipeline's output order is not fixed; this model lists the
      statuses in declaration order). */
  function StatusDistribution(ts: seq<Task>): (r: seq<StatusCount>)
    ensures forall e :: e in r ==> e.count >= 1 && e.count == CountStatus(ts, e.status)
    ensures forall t :: t in ts ==> exists e :: e in r && e.status == t.status
  {
    var a, b, c := Entry(ts, Pending), Entry(ts, InProgress), Entry(ts, Completed);
    var r := a + b + c;
    assert forall e :: e in r <==> e in a || e in b || e in c;
    forall t | t in ts ensures exists e :: e in r && e.status == t.status {
      assert Entry(ts, t.status)[0] in Entry(ts, t.status);
    }
    r
  }

  /** No status has two entries. */
  lemma DistributionDistinct(ts: seq<Task>)
    ensures var r := StatusDistribution(ts);
      forall i, j :: 0 <= i < j < |r| ==> r[i].status != r[j].status
  {
    var a, b, c := Entry(ts, Pending), Entry(ts, InProgress), Entry(ts, Completed);
    assert StatusDistribution(ts) == a + b + c;
    var p, q := StatusCount(Pending, CountStatus(ts, Pending)), StatusCount(InProgress, CountStatus(ts, InProgress));
    var o := StatusCount(Completed, CountStatus(ts, Completed));
    assert a == [] || a == [p];
    assert b == [] || b == [q];
    assert c == [] || c == [o];
  }

  /** The counts of the three statuses add up to the number of tasks. */
  lemma {:induction false} DistributionTotal(ts: seq<Task>)
    ensures CountStatus(ts, Pending) + CountStatus(ts, InProgress) + CountStatus(ts, Completed) == |ts|
  {
    if ts != [] {
      DistributionTotal(ts[1..]);
    }
  }

  function SumCounts(r: seq<StatusCount>): nat
  {
    if r == [] then 0 else r[0].count + SumCounts(r[1..])
  }

  lemma {:induction false} SumCountsConcat(a: seq<StatusCount>, b: seq<StatusCount>)
    ensures SumCounts(a + b) == SumCounts(a) + SumCounts(b)
  {
    if a != [] {
      assert (a + b)[1..] == a[1..] + b;
      SumCountsConcat(a[1..], b);
    } else {
      assert a + b == b;
    }
  }

  /** `totalTasks` equals the sum of the distribution's counts. */
  lemma DistributionSumsToTotal(ts: seq<Task>)
    ensures SumCounts(StatusDistribution(ts)) == |ts|
  {
    var p, i, c := Entry(ts, Pending), Entry(ts, InProgress), Entry(ts, Completed);
    assert StatusDistribution(ts) == p + i + c;
    SumCountsConcat(p, i);
    SumCountsConcat(p + i, c);
    EntrySum(ts, Pending);
    EntrySum(ts, InProgress);
    EntrySum(ts, Completed);
    DistributionTotal(ts);
  }

  lemma EntrySum(ts: seq<Task>, s: Status)
    ensures SumCounts(Entry(ts, s)) == CountStatus(ts, s)
  {
    var e := Entry(ts, s);
    if e != [] {
      assert e[1..] == [];
    }
  }

  datatype DashboardStats = DashboardStats(
    totalTasks: nat,
    totalUsers: nat,
    averageHundredths: nat,
    tasksLastWeek: nat,
    tasksPreviousWeek: nat,
    statusDistribution: seq<StatusCount>)

  /** getDashboardStats (lines 4-54), with `today` the local midnight. */
  function GetDashboardStats(ts: seq<Task>, us: seq<User>, today: int): (d: DashboardStats)
    ensures d.totalTasks == |ts| && d.totalUsers == |us|
    ensures d.tasksLastWeek + d.tasksPreviousWeek <= d.totalTasks
    ensures SumCounts(d.statusDistribution) == d.totalTasks
    ensures |us| == 0 ==> d.averageHundredths == 0
  {
    TwoWeeks(ts, today);
    DistributionSumsToTotal(ts);
    var last := TasksLastWeek(ts, today);
    DashboardStats(
      totalTasks := |ts|,
      totalUsers := |us|,
      averageHundredths := AverageHundredths(last, |us|),
      tasksLastWeek := last,
      tasksPreviousWeek := TasksPreviousWeek(ts, today),
      statusDistribution := StatusDistribution(ts))
  }

  // ---------------------------------------------------------------------
  // Users and tasks

  function Public(u: User): PublicUser
  {
    PublicUser(u.id, u.name, u.email, u.role)
  }

  /** getAllUsers (lines 56-63): every user, in order, without the password. */
  function GetAllUsers(us: seq<User>): (r: seq<PublicUser>)
    ensures |r| == |us|
    ensures forall i :: 0 <= i < |us| ==>
      r[i].id == us[i].id && r[i].name == us[i].name && r[i].email == us[i].email && r[i].role == us[i].role
  {
    seq(|us|, i requires 0 <= i < |us| => Public(us[i]))
  }

  /** getAllTasksAdmin (lines 65-76): every task, whoever asks, newest first. */
  function GetAllTasksAdmin(ts: seq<Task>): (r: seq<Task>)
    ensures Sorted(CreatedAtDesc, r)
    ensures multiset(r) == multiset(ts)
  {
    SortBy(CreatedAtDesc, ts)
  }

  // ---------------------------------------------------------------------
  // Per-user statistics

  datatype UserStats = UserStats(
    userId: Id,
    userName: string,
    userEmail: string,
    totalTasks: nat,
    completedTasks: nat,
    pendingTasks: nat)

  /** The `_id` values of the `$group` on assignedTo: each assignee once. */
  function Assignees(ts: seq<Task>): (r: seq<Id>)
    ensures forall a :: a in r <==> exists t :: t in ts && t.assignedTo == a
    ensures forall i, j :: 0 <= i < j < |r| ==> r[i] != r[j]
  {
    if ts == [] then []
    else
      var rest := Assignees(ts[1..]);
      assert forall t :: t in ts <==> t == ts[0] || t in ts[1..];
      if ts[0].assignedTo in rest then rest else [ts[0].assignedTo] + rest
  }

  /** The group's counters: all of an assignee's tasks, and those among them
      with status `s`. */
  function CountAssigned(ts: seq<Task>, a: Id): (n: nat)
    ensures n >= 1 <==> exists t :: t in ts && t.assignedTo == a
  {
    if ts == [] then 0
    else
      assert forall t :: t in ts <==> t == ts[0] || t in ts[1..];
      CountAssigned(ts[1..], a) + (if ts[0].assignedTo == a then 1 else 0)
  }

  function CountAssignedStatus(ts: seq<Task>, a: Id, s: Status): nat
  {
    if ts == [] then 0
    else CountAssignedStatus(ts[1..], a, s) + (if ts[0].assignedTo == a && ts[0].status == s then 1 else 0)
  }

  /** An assignee's completed and pending tasks are among their tasks and
      never the same ones; in-progress tasks count toward the total only. */
  lemma {:induction false} StatusCountsBounded(ts: seq<Task>, a: Id)
    ensures CountAssignedStatus(ts, a, Completed) + CountAssignedStatus(ts, a, Pending)
            + CountAssignedStatus(ts, a, InProgress) == CountAssigned(ts, a)
  {
    if ts != [] {
      StatusCountsBounded(ts[1..], a);
    }
  }

  /** `$lookup` on the users' `_id`, which is unique: the user with that id,
      if any. */
  function FindUser(us: seq<User>, a: Id): (r: Option<User>)
    ensures r.Some? ==> r.value in us && r.value.id == a
    ensures r.None? ==> forall u :: u in us ==> u.id != a
  {
    if us == [] then None
    else if us[0].id == a then Some(us[0])
    else
      assert forall u :: u in us ==> u == us[0] || u in us[1..];
      FindUser(us[1..], a)
  }

  /** `$project`: the group's counts beside the user's name and e-mail. */
  function Row(a: Id, ts: seq<Task>, u: User): UserStats
  {
    UserStats(
      userId := a,
      userName := u.name,
      userEmail := u.email,
      totalTasks := CountAssigned(ts, a),
      completedTasks := CountAssignedStatus(ts, a, Completed),
      pendingTasks := CountAssignedStatus(ts, a, Pending))
  }

  /** `$unwind`: the groups whose id names no user are dropped. */
  function RowsOf(ids: seq<Id>, ts: seq<Task>, us: seq<User>): (r: seq<UserStats>)
    ensures forall x :: x in r ==> x.userId in ids && FindUser(us, x.userId) == Some(RowUser(x, us))
    ensures forall x :: x in r ==> x == Row(x.userId, ts, RowUser(x, us))
    ensures forall a :: a in ids && FindUser(us, a).Some? ==> exists x :: x in r && x.userId == a
    ensures (forall i, j :: 0 <= i < j < |ids| ==> ids[i] != ids[j]) ==>
      forall i, j :: 0 <= i < j < |r| ==> r[i].userId != r[j].userId
  {
    if ids == [] then []
    else
      var rest := RowsOf(ids[1..], ts, us);
      assert forall a :: a in ids <==> a == ids[0] || a in ids[1..];
      var found := FindUser(us, ids[0]);
      if found.None? then
        assert (forall i, j :: 0 <= i < j < |ids| ==> ids[i] != ids[j]) ==>
          forall i, j :: 0 <= i < j < |ids[1..]| ==> ids[1..][i] != ids[1..][j];
        rest
      else
        var x := Row(ids[0], ts, found.value);
        assert RowUser(x, us) == found.value;
        DistinctRowsCons(ids, x, rest);
        [x] + rest
  }

  /** The user a row was joined with. */
  function RowUser(x: UserStats, us: seq<User>): User
  {
    var f := FindUser(us, x.userId);
    if f.Some? then f.value else User(x.userId, x.userName, x.userEmail, "", "")
  }

  lemma DistinctRowsCons(ids: seq<Id>, x: UserStats, rest: seq<UserStats>)
    requires ids != [] && x.userId == ids[0]
    requires forall y :: y in rest ==> y.userId in ids[1..]
    requires (forall i, j :: 0 <= i < j < |ids[1..]| ==> ids[1..][i] != ids[1..][j]) ==>
      forall i, j :: 0 <= i < j < |rest| ==> rest[i].userId != rest[j].userId
    ensures (forall i, j :: 0 <= i < j < |ids| ==> ids[i] != ids[j]) ==>
      forall i, j :: 0 <= i < j < |[x] + rest| ==> ([x] + rest)[i].userId != ([x] + rest)[j].userId
  {
    if forall i, j :: 0 <= i < j < |ids| ==> ids[i] != ids[j] {
      assert forall i, j :: 0 <= i < j < |ids[1..]| ==> ids[1..][i] != ids[1..][j] by {
        forall i, j | 0 <= i < j < |ids[1..]| ensures ids[1..][i] != ids[1..][j] {
          assert ids[1..][i] == ids[i + 1] && ids[1..][j] == ids[j + 1];
        }
      }
      assert ids[0] !in ids[1..] by {
        forall k | 0 <= k < |ids[1..]| ensures ids[1..][k] != ids[0] {
          assert ids[1..][k] == ids[k + 1];
        }
      }
      var r := [x] + rest;
      forall i, j | 0 <= i < j < |r| ensures r[i].userId != r[j].userId {
        assert r[j] == rest[j - 1];
        assert rest[j - 1] in rest;
        if i > 0 {
          assert r[i] == rest[i - 1];
        }
      }
    }
  }

  /** getUserTaskStats (lines 78-120): one row per assignee that is a user,
      carrying that user's name and e-mail and the assignee's counts; no
      user appears twice. */
  function GetUserTaskStats(ts: seq<Task>, us: seq<User>): (r: seq<UserStats>)
    ensures forall x :: x in r ==>
      && (exists u :: u in us && u.id == x.userId && u.name == x.userName && u.email == x.userEmail)
      && x.totalTasks == CountAssigned(ts, x.userId) >= 1
      && x.completedTasks == CountAssignedStatus(ts, x.userId, Completed)
      && x.pendingTasks == CountAssignedStatus(ts, x.userId, Pending)
      && x.completedTasks + x.pendingTasks <= x.totalTasks
    ensures forall t :: t in ts && FindUser(us, t.assignedTo).Some? ==>
      exists x :: x in r && x.userId == t.assignedTo
    ensures forall i, j :: 0 <= i < j < |r| ==> r[i].userId != r[j].userId
  {
    var ids := Assignees(ts);
    var r := RowsOf(ids, ts, us);
    forall x | x in r
      ensures x.completedTasks + x.pendingTasks <= x.totalTasks
    {
      StatusCountsBounded(ts, x.userId);
    }
    r
  }
}
