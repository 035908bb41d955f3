/** The delivery partner's two assignment queries: the active job and the
    history of completed ones. Both are filters over the assignment store the
    OTP routes write. `dbFails` stands for a database error thrown while the
    query runs. */
module DeliveryQueries {
  import opened Common
  import opened Models
  import opened DeliveryOtp

  /** What GET /api/delivery/current-order answers: {message: false},
      {message: true, assignment} or the error text. */
  datatype CurrentOrderBody = NoActiveJob | ActiveJob(assignment: Assignment) | QueryError

  datatype CurrentOrderResponse = CurrentOrderResponse(status: int, body: CurrentOrderBody)

  /** The filter {assignedTo: caller, status: "assigned"}. Without a session the
      caller is undefined, and Mongoose drops a filter key whose value is
      undefined, so only the status is compared. */
  predicate ActiveFor(a: Assignment, caller: Option<Id>) {
    a.status == Assigned && (caller.None? || a.assignedTo == caller)
  }

  function Active(caller: Option<Id>): Assignment -> bool {
    (a: Assignment) => ActiveFor(a, caller)
  }

  /** GET /api/delivery/current-order: the first assignment the caller holds
      with status "assigned"; the status code is 200 on every path, errors
      included. */
  function CurrentOrder(st: Store, caller: Option<Id>, dbFails: bool): (r: CurrentOrderResponse)
    ensures r.status == 200
    ensures r.body.QueryError? <==> dbFails
    ensures r.body.ActiveJob? ==>
      && r.body.assignment in st.assignments
      && r.body.assignment.status == Assigned
      && (caller.Some? ==> r.body.assignment.assignedTo == caller)
    ensures r.body.NoActiveJob? <==>
      !dbFails && forall i :: 0 <= i < |st.assignments| ==> !ActiveFor(st.assignments[i], caller)
  {
    if dbFails then CurrentOrderResponse(200, QueryError)
    else
      match FindFirst(st.assignments, Active(caller))
      case None => CurrentOrderResponse(200, NoActiveJob)
      case Some(i) => CurrentOrderResponse(200, ActiveJob(st.assignments[i]))
  }

  /** Without a session the route still answers with an active assignment when
      any partner has one: the first in the store, whoever holds it. */
  lemma CurrentOrderWithoutSession(st: Store, k: nat)
    requires k < |st.assignments| && st.assignments[k].status == Assigned
    ensures CurrentOrder(st, None, false).body.ActiveJob?
  {
    assert ActiveFor(st.assignments[k], None);
  }

  datatype CompletedResponse = CompletedResponse(status: int, assignments: seq<Assignment>)

  predicate CompletedBy(a: Assignment, userId: Id) {
    a.assignedTo == Some(userId) && a.status == Completed
  }

  function FinishedBy(userId: Id): Assignment -> bool {
    (a: Assignment) => CompletedBy(a, userId)
  }

  function EmailIs(email: string): User -> bool {
    (u: User) => u.email == email
  }

  /** The user the route reads history for: the session's id if it has one,
      otherwise the id of the user whose email the session carries. */
  function ResolveUser(users: seq<User>, sessionId: Option<Id>, sessionEmail: Option<string>): (id: Option<Id>)
    ensures Truthy(sessionId) ==> id == sessionId
    ensures !Truthy(sessionId) && id.Some? ==>
      Truthy(sessionEmail) && exists j :: 0 <= j < |users| && users[j].email == sessionEmail.value && users[j].id == id.value
    ensures (!Truthy(sessionId) && Truthy(sessionEmail) &&
             forall j :: 0 <= j < |users| ==> users[j].email != sessionEmail.value) ==> id.None?
    ensures (!Truthy(sessionId) && Truthy(sessionEmail) &&
             exists j :: 0 <= j < |users| && users[j].email == sessionEmail.value) ==> id.Some?
  {
    if Truthy(sessionId) then sessionId
    else if Truthy(sessionEmail) then
      match FindFirst(users, EmailIs(sessionEmail.value))
      case None => None
      case Some(j) => Some(users[j].id)
    else None
  }

  /** GET /api/delivery/completed-assignments. */
  function CompletedAssignments(st: Store, sessionId: Option<Id>, sessionEmail: Option<string>, dbFails: bool)
    : (r: CompletedResponse)
    ensures r.status == 401 <==> !Truthy(sessionEmail) && !Truthy(sessionId)
    ensures r.status == 404 <==>
      (Truthy(sessionEmail) || Truthy(sessionId)) && !dbFails && !Truthy(ResolveUser(st.users, sessionId, sessionEmail))
    ensures r.status != 200 ==> r.assignments == []
    ensures r.status == 500 <==> (Truthy(sessionEmail) || Truthy(sessionId)) && dbFails
    ensures r.status == 200 ==> Truthy(ResolveUser(st.users, sessionId, sessionEmail))
    ensures r.status == 200 ==>
      var userId := ResolveUser(st.users, sessionId, sessionEmail).value;
      && (forall i :: 0 <= i < |r.assignments| ==> r.assignments[i] in st.assignments && CompletedBy(r.assignments[i], userId))
      && (forall i :: 0 <= i < |st.assignments| && CompletedBy(st.assignments[i], userId) ==> st.assignments[i] in r.assignments)
  {
    if !Truthy(sessionEmail) && !Truthy(sessionId) then CompletedResponse(401, [])
    else if dbFails then CompletedResponse(500, [])
    else
      var userId := ResolveUser(st.users, sessionId, sessionEmail);
      if !Truthy(userId) then CompletedResponse(404, [])
      else CompletedResponse(200, Filter(st.assignments, FinishedBy(userId.value)))
  }

  /** A confirmed delivery moves the job from the partner's active slot to the
      partner's history: afterwards the current-order query no longer returns an
      assignment of that order, and the completed-assignments query lists the
      assignment the verify completed. */
  lemma {:induction false} VerifyMovesJobToHistory(st: Store, caller: Option<Id>, orderId: Option<Id>, otp: Option<string>, now: int)
    requires OneActivePerJob(st.assignments)
    requires Verify(st, caller, orderId, otp, now).response.status == 200
    ensures var st' := Verify(st, caller, orderId, otp, now).store;
      && (CurrentOrder(st', caller, false).body.ActiveJob? ==> CurrentOrder(st', caller, false).body.assignment.order != orderId.value)
      && exists i :: 0 <= i < |st'.assignments| && st'.assignments[i] in CompletedAssignments(st', caller, None, false).assignments
                     && st'.assignments[i].order == orderId.value
  {
    var st' := Verify(st, caller, orderId, otp, now).store;
    var a := FindFirst(st.assignments, Held(orderId.value, caller.value)).value;
    SecondVerifyForbidden(st, caller, orderId, otp, now, Some("0"), now);
    assert CompletedBy(st'.assignments[a], caller.value);
    assert st'.assignments[a] in CompletedAssignments(st', caller, None, false).assignments;
    var c := CurrentOrder(st', caller, false);
    if c.body.ActiveJob? {
      var j := FindFirst(st'.assignments, Active(caller)).value;
      assert !Held(orderId.value, caller.value)(st'.assignments[j]);
    }
  }
}
