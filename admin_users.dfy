/** client/src/pages/AdminUsers.jsx: the user table, which puts each user
    beside the per-user task figures and a completion rate. */
module AdminUsers {
  import opened Wrappers
  import opened Requests
  import opened TaskModel
  import opened AdminController

  /** The figures a table row shows. */
  datatype Counts = Counts(totalTasks: nat, completedTasks: nat, pendingTasks: nat)

  const NoTasks := Counts(0, 0, 0)

  function CountsOf(x: UserStats): Counts
  {
    Counts(x.totalTasks, x.completedTasks, x.pendingTasks)
  }

  /** The position of the first row for that user, |stats| when there is
      none. */
  function FirstRowOf(stats: seq<UserStats>, id: Id): (k: nat)
    ensures k <= |stats|
    ensures forall j :: 0 <= j < k ==> stats[j].userId != id
    ensures k < |stats| ==> stats[k].userId == id
  {
    if stats == [] || stats[0].userId == id then 0
    else
      var k := FirstRowOf(stats[1..], id);
      assert forall j :: 1 <= j < |stats| ==> stats[j] == stats[1..][j - 1];
      1 + k
  }

  /** getUserStats: the figures of the first row for that user, zeros when
      there is none. */
  function GetUserStats(stats: seq<UserStats>, id: Id): (c: Counts)
    ensures (forall x :: x in stats ==> x.userId != id) ==> c == NoTasks
    ensures (exists x :: x in stats && x.userId == id) ==>
      exists x :: x in stats && x.userId == id && c == CountsOf(x)
    ensures forall i :: 0 <= i < |stats| && stats[i].userId == id && (forall j :: 0 <= j < i ==> stats[j].userId != id) ==>
      c == CountsOf(stats[i])
  {
    var k := FirstRowOf(stats, id);
    if k < |stats| then
      assert stats[k] in stats;
      CountsOf(stats[k])
    else NoTasks
  }

  /** `((completed / total) * 100).toFixed(0)` as a whole percentage,
      rounding half up; 0 when the user has no tasks. */
  function CompletionRate(completed: nat, total: nat): (r: nat)
    ensures total == 0 ==> r == 0
    ensures total > 0 ==> 200 * completed - total < 2 * total * r <= 200 * completed + total
    ensures completed <= total ==> r <= 100
  {
    if total == 0 then 0
    else
      var r := (200 * completed + total) / (2 * total);
      assert completed <= total ==> r <= 100 by {
        if completed <= total {
          DivBelow(200 * completed + total, 2 * total, 101);
        }
      }
      r
  }

  /** n / d stays below k when n does below d * k. */
  lemma DivBelow(n: nat, d: nat, k: nat)
    requires d > 0 && n < d * k
    ensures n / d < k
  {
    var q := n / d;
    if q >= k {
      assert d * q >= d * k by { MulMonotone(d, k, q); }
    }
  }

  lemma MulMonotone(d: nat, a: nat, b: nat)
    requires a <= b
    ensures d * a <= d * b
  {
    assert d * b == d * a + d * (b - a);
  }

  /** A row of the table. */
  datatype UserRow = UserRow(
    name: string,
    email: string,
    role: string,
    totalTasks: nat,
    completedTasks: nat,
    pendingTasks: nat,
    completionRate: nat)

  function RowFor(u: PublicUser, stats: seq<UserStats>): UserRow
  {
    var c := GetUserStats(stats, u.id);
    UserRow(u.name, u.email, u.role, c.totalTasks, c.completedTasks, c.pendingTasks,
            CompletionRate(c.completedTasks, c.totalTasks))
  }

  /** `users.map(...)`: one row per user, in the users' order. */
  function TableRows(users: seq<PublicUser>, stats: seq<UserStats>): (r: seq<UserRow>)
    ensures |r| == |users|
    ensures forall i :: 0 <= i < |users| ==>
      r[i].name == users[i].name && r[i].email == users[i].email && r[i].role == users[i].role
    ensures forall i :: 0 <= i < |users| ==>
      var c := GetUserStats(stats, users[i].id);
      r[i].totalTasks == c.totalTasks && r[i].completedTasks == c.completedTasks && r[i].pendingTasks == c.pendingTasks
  {
    seq(|users|, i requires 0 <= i < |users| => RowFor(users[i], stats))
  }

  /** With the two lists the admin endpoints return for the same users and
      tasks, the row of every user shows that user's number of assigned
      tasks, completed and pending tasks among them, and a rate of at most
      100 per cent. */
  lemma TableShowsServerCounts(ts: seq<Task>, us: seq<User>, i: nat)
    requires i < |us|
    ensures var row := TableRows(GetAllUsers(us), GetUserTaskStats(ts, us))[i];
      && row.totalTasks == CountAssigned(ts, us[i].id)
      && row.completedTasks == CountAssignedStatus(ts, us[i].id, Completed)
      && row.pendingTasks == CountAssignedStatus(ts, us[i].id, Pending)
      && row.completionRate <= 100
  {
    var stats := GetUserTaskStats(ts, us);
    var u := us[i];
    assert u in us;
    assert GetAllUsers(us)[i] == Public(u);
    assert TableRows(GetAllUsers(us), stats)[i] == RowFor(Public(u), stats);
    StatsOfUser(ts, us, u);
    StatusCountsBounded(ts, u.id);
  }

  /** The figures the page looks up for a user are that user's counts. */
  lemma StatsOfUser(ts: seq<Task>, us: seq<User>, u: User)
    requires u in us
    ensures GetUserStats(GetUserTaskStats(ts, us), u.id)
      == Counts(CountAssigned(ts, u.id), CountAssignedStatus(ts, u.id, Completed), CountAssignedStatus(ts, u.id, Pending))
  {
    var stats := GetUserTaskStats(ts, us);
    var c := GetUserStats(stats, u.id);
    if exists x :: x in stats && x.userId == u.id {
      var x :| x in stats && x.userId == u.id && c == CountsOf(x);
    } else {
      assert FindUser(us, u.id).Some?;
      assert forall t :: t in ts ==> t.assignedTo != u.id;
      NoneAssigned(ts, u.id);
    }
  }

  lemma {:induction false} NoneAssigned(ts: seq<Task>, a: Id)
    requires forall t :: t in ts ==> t.assignedTo != a
    ensures CountAssignedStatus(ts, a, Completed) == 0 && CountAssignedStatus(ts, a, Pending) == 0
  {
    if ts != [] {
      assert ts[0] in ts;
      assert forall t :: t in ts[1..] ==> t in ts;
      NoneAssigned(ts[1..], a);
    }
  }

  class Page {
    var users: seq<PublicUser>
    var userStats: seq<UserStats>
    var loading: bool

    constructor()
      ensures users == [] && userStats == [] && loading
    {
      users := [];
      userStats := [];
      loading := true;
    }

    /** fetchData: both lists when both requests succeed (None otherwise,
        which keeps both); loading ends either way. */
    method FetchData(response: Option<(seq<PublicUser>, seq<UserStats>)>)
      modifies this
      ensures response.Some? ==> users == response.value.0 && userStats == response.value.1
      ensures response.None? ==> users == old(users) && userStats == old(userStats)
      ensures !loading
    {
      if response.Some? {
        users := response.value.0;
        userStats := response.value.1;
      }
      loading := false;
    }
  }
}
