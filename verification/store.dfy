/** The relational store behind the controllers, as in-memory tables keyed
    by their SERIAL ids. Each table is a map field the handlers reassign;
    users are reachable both by id and by their unique email. */
module Store {
  import opened Common

  /** A row of `users`. */
  datatype User = User(name: string, email: string, passwordHash: string, role: Role, createdAt: nat)

  /** A row of `requests`. `assignedTo` and `rejectionReason` are NULL until a
      status update fills them. */
  datatype Request = Request(
    userId: nat,
    serviceId: nat,
    title: string,
    description: string,
    priority: Priority,
    status: Status,
    assignedTo: Option<nat>,
    rejectionReason: Option<string>,
    submittedAt: nat)

  /** A row of `feedback`; the table is keyed by the request it rates. */
  datatype Feedback = Feedback(feedbackId: nat, rating: int, comment: Option<string>, submittedAt: nat)

  /** A row of `departments`. */
  datatype Department = Department(name: string, maxCapacity: int, responseSlaHours: int)

  /** A row of `service_types`. */
  datatype Service = Service(name: string, deptId: nat, description: Option<string>, defaultPriority: string)

  /** What an INSERT into `users` reports: the new id, or the SQLSTATE of
      the constraint it broke. */
  datatype Inserted = Inserted(id: nat) | Violation(code: string)

  class Database {
    var users: map<nat, User>
    var emailIndex: map<string, nat>
    var requests: map<nat, Request>
    var feedback: map<nat, Feedback>
    var departments: map<nat, Department>
    var services: map<nat, Service>
    var nextUserId: nat
    var nextRequestId: nat
    var nextFeedbackId: nat
    var nextDeptId: nat
    var nextServiceId: nat

    /** Every id lies below its sequence's next value, the email index is
        exactly the users table seen through the unique email column, and the
        foreign keys of requests (user_id, service_id) and of service types
        (dept_id) name existing rows. Feedback is not tied to its request:
        a deleted request can leave its feedback behind. */
    ghost predicate Valid()
      reads this
    {
      && (forall id :: id in users ==> id < nextUserId)
      && (forall id :: id in requests ==> id < nextRequestId)
      && (forall rid :: rid in feedback ==> feedback[rid].feedbackId < nextFeedbackId)
      && (forall id :: id in departments ==> id < nextDeptId)
      && (forall id :: id in services ==> id < nextServiceId)
      && (forall e :: e in emailIndex ==> emailIndex[e] in users && users[emailIndex[e]].email == e)
      && (forall id :: id in users ==> users[id].email in emailIndex && emailIndex[users[id].email] == id)
      && (forall id :: id in requests ==> requests[id].userId in users && requests[id].serviceId in services)
      && (forall id :: id in services ==> services[id].deptId in departments)
    }

    constructor ()
      ensures Valid()
      ensures users == map[] && emailIndex == map[] && requests == map[] && feedback == map[]
      ensures departments == map[] && services == map[]
      ensures nextUserId == 1 && nextRequestId == 1 && nextFeedbackId == 1 && nextDeptId == 1 && nextServiceId == 1
    {
      users, emailIndex, requests, feedback := map[], map[], map[], map[];
      departments, services := map[], map[];
      nextUserId, nextRequestId, nextFeedbackId, nextDeptId, nextServiceId := 1, 1, 1, 1, 1;
    }

    /** The user whose email column equals `email`, if any. */
    function UserByEmail(email: string): (r: Option<nat>)
      reads this
      requires Valid()
      ensures r.Some? <==> exists id :: id in users && users[id].email == email
      ensures r.Some? ==> r.value in users && users[r.value].email == email
    {
      if email in emailIndex then Some(emailIndex[email]) else None
    }

    /** INSERT INTO users: the unique email constraint refuses a second
        account with the same email (SQLSTATE 23505) and leaves the table
        as it was; otherwise the row gets the next id. */
    method InsertUser(u: User) returns (r: Inserted)
      requires Valid()
      modifies this`users, this`emailIndex, this`nextUserId
      ensures Valid()
      ensures u.email in old(emailIndex) ==> r == Violation("23505") && unchanged(this)
      ensures u.email !in old(emailIndex) ==>
                r == Inserted(old(nextUserId)) && old(nextUserId) !in old(users) &&
                users == old(users)[old(nextUserId) := u] &&
                emailIndex == old(emailIndex)[u.email := old(nextUserId)]
    {
      if u.email in emailIndex {
        return Violation("23505");
      }
      var id := nextUserId;
      users := users[id := u];
      emailIndex := emailIndex[u.email := id];
      nextUserId := nextUserId + 1;
      r := Inserted(id);
    }
  }
}
