/** client/src/pages/AllTasks.jsx: the fetched tasks, the search box that
    narrows them by title, and the button that flips a task between
    completed and pending. */
module AllTasks {
  import opened Wrappers
  import opened Text
  import opened Requests
  import opened TaskModel
  import opened TaskValidation
  import opened TaskController
  import opened ClientTask

  /** Whether a card's lower-cased title contains the lower-cased term. */
  predicate TitleMatches(c: Card, term: string)
  {
    Contains(ToLower(c.title), ToLower(term))
  }

  /** `tasks.filter((task) => task.title.toLowerCase().includes(...))`. */
  function Matching(cs: seq<Card>, term: string): (r: seq<Card>)
    ensures forall c :: c in r <==> c in cs && TitleMatches(c, term)
    ensures forall c :: multiset(r)[c] == if TitleMatches(c, term) then multiset(cs)[c] else 0
  {
    if cs == [] then []
    else
      assert cs == [cs[0]] + cs[1..];
      (if TitleMatches(cs[0], term) then [cs[0]] else []) + Matching(cs[1..], term)
  }

  /** The filter keeps the list order. */
  lemma {:induction false} MatchingConcat(a: seq<Card>, b: seq<Card>, term: string)
    ensures Matching(a + b, term) == Matching(a, term) + Matching(b, term)
  {
    if a == [] {
      assert a + b == b;
    } else {
      assert (a + b)[0] == a[0] && (a + b)[1..] == a[1..] + b;
      MatchingConcat(a[1..], b, term);
    }
  }

  /** Every title contains the empty text, so filtering by it would keep
      the whole list as well. */
  lemma {:induction false} MatchingEmpty(cs: seq<Card>)
    ensures Matching(cs, "") == cs
  {
    if cs != [] {
      ContainsEmpty(ToLower(cs[0].title));
      MatchingEmpty(cs[1..]);
      assert cs == [cs[0]] + cs[1..];
    }
  }

  /** The effect on [searchTerm, tasks]: the whole list for an empty term,
      the matching cards otherwise. */
  function SearchFilter(cs: seq<Card>, term: string): (r: seq<Card>)
    ensures term == "" ==> r == cs
    ensures forall c :: c in r <==> c in cs && TitleMatches(c, term)
    ensures forall c :: multiset(r)[c] == if TitleMatches(c, term) then multiset(cs)[c] else 0
  {
    if term != "" then Matching(cs, term)
    else
      MatchingEmpty(cs);
      cs
  }

  /** handleToggleComplete's new status: completed becomes pending, any
      other status becomes completed. */
  function Toggle(status: string): (r: string)
    ensures r == "pending" <==> status == "completed"
    ensures r == "completed" <==> status != "completed"
    ensures ParseStatus(r).Some?
  {
    if status == "completed" then "pending" else "completed"
  }

  /** Toggling twice gives back pending and completed, but turns
      in-progress into pending. */
  lemma ToggleTwice(status: string)
    ensures status == "pending" || status == "completed" ==> Toggle(Toggle(status)) == status
    ensures status == "in-progress" ==> Toggle(Toggle(status)) == "pending"
  {
  }

  /** The toggle request, which sends only the status. */
  function ToggleRequest(c: Card): (r: StatusRequest)
    ensures r.id == c.id && r.status == Toggle(c.status)
  {
    StatusRequest(c.id, Toggle(c.status))
  }

  /** On the server the toggle request passes updateTaskSchema, is saved,
      and changes the status (and the completion time with it) and nothing
      else the user sees. */
  lemma ToggleOnServer(t: Task, actor: Actor, now: int)
    requires WellFormed(t) && CompletionConsistent(t)
    ensures var b := RequestBody(ToggleRequest(Card(t.id, t.title, StatusName(t.status))));
      && AcceptsUpdate(b)
      && ApplyUpdate(t, b, actor, now).Ok?
      && var u := ApplyUpdate(t, b, actor, now).value;
      && u.status == (if t.status == Completed then Pending else Completed)
      && u.completedAt == (if t.status == Completed then None else Some(now))
      && u.title == t.title && u.description == t.description && u.dueDate == t.dueDate
      && u.category == t.category && u.priority == t.priority && u.assignedTo == t.assignedTo
  {
    var s := Toggle(StatusName(t.status));
    var b := RequestBody(StatusRequest(t.id, s));
    assert b == RequestBody(ToggleRequest(Card(t.id, t.title, StatusName(t.status))));
    ToggleParses(t.status);
    assert AcceptsUpdate(b);
    UpdateAcceptedSaves(t, b, actor, now);
    UpdatedTaskKeeps(t, b, actor, now);
    UpdatedTaskTexts(t, b, actor, now);
    UpdatedTaskChoices(t, b, actor, now);
    UpdatedCompletion(t, b, actor, now);
  }

  /** The toggled status text names the other status. */
  lemma ToggleParses(status: Status)
    ensures var s := Toggle(StatusName(status));
      && ParseStatus(s) == Some(if status == Completed then Pending else Completed)
      && (s == "completed" <==> status != Completed)
  {
  }

  class AllTasksPage {
    var tasks: seq<Card>
    var filteredTasks: seq<Card>
    var searchTerm: string
    var loading: bool

    /** What the filter effect keeps true once it has run. */
    ghost predicate Valid()
      reads this
    {
      filteredTasks == SearchFilter(tasks, searchTerm)
    }

    constructor()
      ensures Valid() && tasks == [] && searchTerm == "" && loading
    {
      tasks := [];
      filteredTasks := [];
      searchTerm := "";
      loading := true;
    }

    /** The filter effect, which runs after every change of searchTerm or
        tasks. */
    method RefreshFilter()
      modifies this
      ensures Valid()
      ensures tasks == old(tasks) && searchTerm == old(searchTerm) && loading == old(loading)
    {
      if searchTerm != "" {
        filteredTasks := Matching(tasks, searchTerm);
      } else {
        filteredTasks := tasks;
      }
    }

    /** Typing in the search box. */
    method SetSearchTerm(term: string)
      modifies this
      ensures Valid()
      ensures searchTerm == term && tasks == old(tasks) && loading == old(loading)
      ensures term == "" ==> filteredTasks == tasks
    {
      searchTerm := term;
      RefreshFilter();
    }

    /** fetchTasks: the fetched list when the request succeeds (None when it
        fails, which keeps the list); loading ends either way. */
    method FetchTasks(response: Option<seq<Card>>)
      modifies this
      ensures Valid()
      ensures tasks == (if response.Some? then response.value else old(tasks))
      ensures searchTerm == old(searchTerm) && !loading
    {
      if response.Some? {
        tasks := response.value;
        filteredTasks := response.value;
      }
      loading := false;
      RefreshFilter();
    }

    /** handleToggleComplete: sends the flipped status; the list is
        refetched only when the request succeeds. */
    method ToggleComplete(c: Card, succeeded: bool, refetched: Option<seq<Card>>) returns (request: StatusRequest)
      requires Valid()
      modifies this
      ensures request == ToggleRequest(c)
      ensures Valid()
      ensures succeeded ==> tasks == (if refetched.Some? then refetched.value else old(tasks)) && !loading
      ensures !succeeded ==> tasks == old(tasks) && loading == old(loading)
      ensures searchTerm == old(searchTerm)
    {
      var newStatus := if c.status == "completed" then "pending" else "completed";
      request := StatusRequest(c.id, newStatus);
      if succeeded {
        FetchTasks(refetched);
      }
    }
  }
}
