/** A task as the client pages hold it after `api.get("/tasks")`: its id,
    its title and its status text, which the pages compare and rewrite. */
module ClientTask {
  import opened Wrappers
  import opened Requests

  datatype Card = Card(id: Id, title: string, status: string)

  /** A status change a page sends: `PUT /tasks/:id` with body
      `{ status }`. */
  datatype StatusRequest = StatusRequest(id: Id, status: string)

  /** The request body as the server sees it: every other field left out. */
  function RequestBody(r: StatusRequest): (b: TaskBody)
    ensures b.status == Str(r.status)
    ensures b.title.Absent? && b.description.Absent? && b.dueDate.NoDate?
    ensures b.category.Absent? && b.priority.Absent? && b.assignedTo.Absent?
  {
    TaskBody(Absent, Absent, NoDate, Absent, Absent, Str(r.status), Absent)
  }

  predicate UniqueCardIds(cs: seq<Card>)
  {
    forall i, j :: 0 <= i < j < |cs| ==> cs[i].id != cs[j].id
  }

  /** The position of the first card with that id, |cs| when there is none. */
  function FirstWithId(cs: seq<Card>, id: Id): (k: nat)
    ensures k <= |cs|
    ensures forall j :: 0 <= j < k ==> cs[j].id != id
    ensures k < |cs| ==> cs[k].id == id
  {
    if cs == [] || cs[0].id == id then 0
    else
      var k := FirstWithId(cs[1..], id);
      assert forall j :: 1 <= j < |cs| ==> cs[j] == cs[1..][j - 1];
      1 + k
  }

  /** `tasks.find((t) => t._id === id)`: the first card with that id. */
  function FindCard(cs: seq<Card>, id: Id): (r: Option<Card>)
    ensures r.None? <==> forall c :: c in cs ==> c.id != id
    ensures forall i :: 0 <= i < |cs| && cs[i].id == id && (forall j :: 0 <= j < i ==> cs[j].id != id) ==>
      r == Some(cs[i])
  {
    var k := FirstWithId(cs, id);
    if k < |cs| then Some(cs[k]) else None
  }

  /** `tasks.map((t) => t._id === id ? { ...t, status } : t)`: the cards
      with that id get the new status, every other card is kept as it was. */
  function WithStatus(cs: seq<Card>, id: Id, status: string): (r: seq<Card>)
    ensures |r| == |cs|
    ensures forall i :: 0 <= i < |cs| ==> r[i].id == cs[i].id && r[i].title == cs[i].title
    ensures forall i :: 0 <= i < |cs| && cs[i].id == id ==> r[i].status == status
    ensures forall i :: 0 <= i < |cs| && cs[i].id != id ==> r[i] == cs[i]
  {
    seq(|cs|, i requires 0 <= i < |cs| => if cs[i].id == id then cs[i].(status := status) else cs[i])
  }

  /** After the map, any other id finds what it found before. */
  lemma WithStatusFindOther(cs: seq<Card>, id: Id, status: string, other: Id)
    requires other != id
    ensures FindCard(WithStatus(cs, id, status), other) == FindCard(cs, other)
  {
    var r := WithStatus(cs, id, status);
    if FindCard(cs, other).Some? {
      var i := FirstWithId(cs, other);
      assert r[i] == cs[i];
      assert forall j :: 0 <= j < i ==> r[j].id == cs[j].id;
    } else {
      assert forall c :: c in r ==> c.id != other by {
        forall c | c in r ensures c.id != other {
          var k :| 0 <= k < |r| && r[k] == c;
          assert cs[k] in cs;
        }
      }
    }
  }

  /** After the map, the rewritten id is found with the new status. */
  lemma WithStatusFindSame(cs: seq<Card>, id: Id, status: string)
    requires FindCard(cs, id).Some?
    ensures FindCard(WithStatus(cs, id, status), id) == Some(FindCard(cs, id).value.(status := status))
  {
    var r := WithStatus(cs, id, status);
    var i := FirstWithId(cs, id);
    assert forall j :: 0 <= j < i ==> r[j].id == cs[j].id;
  }
}
