/**
 * What the `/v1/assignments` handlers of app.js do to an abstract store of
 * users keyed by email, assignments keyed by id, and ownership links keyed by
 * `LinkKey(userId, assignmentId)`. Each handler is a function from the store
 * before the request to the store after it and the response; the class in
 * AssignmentStore performs the same steps in place.
 */
module Assignments {
  import opened Ownership

  datatype User = User(id: string, firstName: string, lastName: string, email: string, passwordHash: string)

  /** The four fields a request body supplies for an assignment. */
  datatype AssignmentData = AssignmentData(name: string, points: int, numOfAttempts: int, deadline: string)

  datatype Assignment = Assignment(id: string, data: AssignmentData)

  datatype StoreState = StoreState(users: map<string, User>, assignments: map<string, Assignment>, links: set<string>)

  datatype Body =
    | Error(message: string)
    | Created(concatenatedId: string, newAssignment: Assignment, assignmentLink: string)
    | One(assignment: Assignment)
    | Many(all: set<Assignment>)
    | Message(text: string)

  datatype Response = Response(status: int, body: Body)

  const UserNotFoundMessage := "User not found"
  const AssignmentNotFoundMessage := "Assignment not found"
  const UpdateForbiddenMessage := "You are not authorized to update this assignment"
  const DeleteForbiddenMessage := "You are not authorized to delete this assignment"
  const DeletedMessage := "Assignment and Assignment_links record deleted successfully"
  const PatchMessage := "Method Not Allowed: Use PUT method to update assignments"

  /** The check that PUT and DELETE run before they mutate anything. */
  datatype Decision =
    | UserNotFound
    | AssignmentNotFound
    | NotOwner
    | Allowed(user: User, assignment: Assignment, link: string)

  /**
   * The cascade: user by email, then assignment by id, then the link for
   * that pair. It allows exactly when all three are found, and then hands
   * back the records it found and the link key, which is in the store.
   */
  function Authorize(st: StoreState, email: string, id: string): (d: Decision)
    ensures d == UserNotFound <==> email !in st.users
    ensures d == AssignmentNotFound <==> email in st.users && id !in st.assignments
    ensures d.Allowed? <==> email in st.users && id in st.assignments
                            && LinkKey(st.users[email].id, st.assignments[id].id) in st.links
    ensures d.Allowed? ==> d.user == st.users[email] && d.assignment == st.assignments[id]
                           && d.link == LinkKey(d.user.id, d.assignment.id) && d.link in st.links
  {
    if email !in st.users then UserNotFound
    else if id !in st.assignments then AssignmentNotFound
    else
      var key := LinkKey(st.users[email].id, st.assignments[id].id);
      if key !in st.links then NotOwner
      else Allowed(st.users[email], st.assignments[id], key)
  }

  /** POST /v1/assignments; `freshId` is the id the store generates for the new row. */
  function CreateOutcome(st: StoreState, email: string, data: AssignmentData, freshId: string): (r: (StoreState, Response))
    ensures r.1.status == 201 <==> email in st.users
    ensures r.1.status != 201 ==> r == (st, Response(404, Error(UserNotFoundMessage)))
    ensures r.0.users == st.users
    ensures st.links <= r.0.links && st.assignments.Keys <= r.0.assignments.Keys
    ensures r.1.status == 201 ==> freshId in r.0.assignments && r.1.body.Created? && r.1.body.concatenatedId in r.0.links
  {
    if email !in st.users then (st, Response(404, Error(UserNotFoundMessage)))
    else
      var newAssignment := Assignment(freshId, data);
      var key := LinkKey(st.users[email].id, newAssignment.id);
      (st.(assignments := st.assignments[freshId := newAssignment], links := st.links + {key}),
       Response(201, Created(key, newAssignment, key)))
  }

  /** PUT /v1/assignments/:id */
  function UpdateOutcome(st: StoreState, email: string, id: string, data: AssignmentData): (r: (StoreState, Response))
    ensures r.1.status == 200 <==> Authorize(st, email, id).Allowed?
    ensures r.1.status == 200 || r.1.status == 403 || r.1.status == 404
    ensures r.0.users == st.users && r.0.links == st.links
    ensures r.0.assignments.Keys == st.assignments.Keys
  {
    match Authorize(st, email, id)
    case UserNotFound => (st, Response(404, Error(UserNotFoundMessage)))
    case AssignmentNotFound => (st, Response(404, Error(AssignmentNotFoundMessage)))
    case NotOwner => (st, Response(403, Error(UpdateForbiddenMessage)))
    case Allowed(_, a, _) =>
      var updated := a.(data := data);
      (st.(assignments := st.assignments[id := updated]), Response(200, One(updated)))
  }

  /** DELETE /v1/assignments/:id */
  function DeleteOutcome(st: StoreState, email: string, id: string): (r: (StoreState, Response))
    ensures r.1.status == 200 <==> Authorize(st, email, id).Allowed?
    ensures r.1.status == 200 || r.1.status == 403 || r.1.status == 404
    ensures r.0.users == st.users
    ensures r.0.links <= st.links && r.0.assignments.Keys <= st.assignments.Keys
    ensures r.1.status == 200 ==> id !in r.0.assignments
  {
    match Authorize(st, email, id)
    case UserNotFound => (st, Response(404, Error(UserNotFoundMessage)))
    case AssignmentNotFound => (st, Response(404, Error(AssignmentNotFoundMessage)))
    case NotOwner => (st, Response(403, Error(DeleteForbiddenMessage)))
    case Allowed(_, _, key) =>
      (st.(assignments := st.assignments - {id}, links := st.links - {key}), Response(200, Message(DeletedMessage)))
  }

  /**
   * The store invariant: `owners` records who created each assignment; every
   * assignment is stored under its own id; user ids and owner ids are free of
   * '_' (they are version-4 UUIDs); and the links are exactly one key per
   * assignment, built from its owner and its id.
   */
  ghost predicate Consistent(st: StoreState, owners: map<string, string>)
    ensures Consistent(st, owners) ==>
      forall id :: id in st.assignments ==> id in owners && LinkKey(owners[id], id) in st.links
  {
    && owners.Keys == st.assignments.Keys
    && (forall id :: id in st.assignments ==> st.assignments[id].id == id)
    && (forall e :: e in st.users ==> '_' !in st.users[e].id)
    && (forall id :: id in owners ==> '_' !in owners[id])
    && st.links == set id | id in owners :: LinkKey(owners[id], id)
  }

  /** Owner keys of distinct assignments are distinct, so there are as many keys as assignments. */
  lemma {:induction false} OwnerKeysCount(owners: map<string, string>)
    requires forall id :: id in owners ==> '_' !in owners[id]
    ensures |set id | id in owners :: LinkKey(owners[id], id)| == |owners|
    decreases |owners|
  {
    if |owners| > 0 {
      var id :| id in owners;
      var rest := owners - {id};
      OwnerKeysCount(rest);
      var key := LinkKey(owners[id], id);
      var all := set i | i in owners :: LinkKey(owners[i], i);
      var others := set i | i in rest :: LinkKey(rest[i], i);
      forall k | k in all ensures k in others + {key} {
        var i :| i in owners && k == LinkKey(owners[i], i);
        if i != id {
          assert rest[i] == owners[i];
        }
      }
      forall k | k in others + {key} ensures k in all {
        if k != key {
          var i :| i in rest && k == LinkKey(rest[i], i);
          assert owners[i] == rest[i];
        }
      }
      assert all == others + {key};
      if key in others {
        var i :| i in rest && key == LinkKey(rest[i], i);
        LinkKeyInjective(rest[i], i, owners[id], id);
        assert false;
      }
      assert rest.Keys == owners.Keys - {id};
    }
  }

  /** A consistent store holds exactly one link per assignment. */
  lemma LinksOnePerAssignment(st: StoreState, owners: map<string, string>)
    requires Consistent(st, owners)
    ensures |st.links| == |st.assignments|
  {
    OwnerKeysCount(owners);
    assert |owners| == |owners.Keys| == |st.assignments.Keys| == |st.assignments|;
  }

  /** In a consistent store a link key names exactly one (owner, assignment) pair. */
  lemma LinkOfConsistent(st: StoreState, owners: map<string, string>, userId: string, id: string)
    requires Consistent(st, owners)
    requires '_' !in userId
    ensures LinkKey(userId, id) in st.links <==> id in owners && owners[id] == userId
  {
    var key := LinkKey(userId, id);
    if key in st.links {
      var id' :| id' in owners && key == LinkKey(owners[id'], id');
      LinkKeyInjective(userId, id, owners[id'], id');
    }
  }

  /** The gate lets through exactly the user who owns the assignment; any other known user gets NotOwner. */
  lemma AuthorizeAllowsExactlyOwner(st: StoreState, owners: map<string, string>, email: string, id: string)
    requires Consistent(st, owners)
    requires email in st.users && id in st.assignments
    ensures Authorize(st, email, id).Allowed? <==> st.users[email].id == owners[id]
    ensures Authorize(st, email, id).Allowed? || Authorize(st, email, id) == NotOwner
  {
    LinkOfConsistent(st, owners, st.users[email].id, id);
  }

  /** An unknown email creates nothing and answers 404. */
  lemma CreateUnknownUser(st: StoreState, email: string, data: AssignmentData, freshId: string)
    requires email !in st.users
    ensures CreateOutcome(st, email, data, freshId) == (st, Response(404, Error(UserNotFoundMessage)))
  {
  }

  /**
   * A known email adds exactly one assignment under the fresh id and exactly
   * one link, `LinkKey(user.id, freshId)`, which is also returned as the
   * concatenated id with status 201.
   */
  lemma CreateAddsOneAssignmentAndOneLink(st: StoreState, owners: map<string, string>, email: string,
                                          data: AssignmentData, freshId: string)
    requires Consistent(st, owners)
    requires email in st.users && freshId !in st.assignments
    ensures var (st', r) := CreateOutcome(st, email, data, freshId);
            var key := LinkKey(st.users[email].id, freshId);
            && r.status == 201
            && r.body == Created(key, Assignment(freshId, data), key)
            && st'.users == st.users
            && st'.assignments == st.assignments[freshId := Assignment(freshId, data)]
            && |st'.assignments| == |st.assignments| + 1
            && key !in st.links
            && st'.links == st.links + {key}
            && |st'.links| == |st.links| + 1
  {
    LinkOfConsistent(st, owners, st.users[email].id, freshId);
  }

  /** Creation keeps the store consistent, recording the creator as owner. */
  lemma CreatePreservesConsistency(st: StoreState, owners: map<string, string>, email: string,
                                   data: AssignmentData, freshId: string)
    requires Consistent(st, owners)
    requires email in st.users && freshId !in st.assignments
    ensures Consistent(CreateOutcome(st, email, data, freshId).0, owners[freshId := st.users[email].id])
  {
    var st' := CreateOutcome(st, email, data, freshId).0;
    var owners' := owners[freshId := st.users[email].id];
    var key := LinkKey(st.users[email].id, freshId);
    var expected := set id | id in owners' :: LinkKey(owners'[id], id);
    forall k | k in expected ensures k in st'.links {
      var id :| id in owners' && k == LinkKey(owners'[id], id);
      if id != freshId {
        assert k in st.links;
      }
    }
    forall k | k in st'.links ensures k in expected {
      if k != key {
        var id :| id in owners && k == LinkKey(owners[id], id);
        assert id != freshId;
        assert owners'[id] == owners[id];
      } else {
        assert freshId in owners' && k == LinkKey(owners'[freshId], freshId);
      }
    }
  }

  /**
   * Ownership round trip: right after user U creates an assignment, U passes
   * the gate for it and every known user with a different id is refused.
   */
  lemma OwnershipRoundTrip(st: StoreState, owners: map<string, string>, creator: string, other: string,
                           data: AssignmentData, freshId: string)
    requires Consistent(st, owners)
    requires creator in st.users && freshId !in st.assignments
    ensures var st' := CreateOutcome(st, creator, data, freshId).0;
            && Authorize(st', creator, freshId).Allowed?
            && UpdateOutcome(st', creator, freshId, data).1.status == 200
            && DeleteOutcome(st', creator, freshId).1.status == 200
            && (other in st.users && st.users[other].id != st.users[creator].id ==>
                  && Authorize(st', other, freshId) == NotOwner
                  && UpdateOutcome(st', other, freshId, data).1.status == 403
                  && DeleteOutcome(st', other, freshId).1.status == 403)
  {
    var st' := CreateOutcome(st, creator, data, freshId).0;
    var owners' := owners[freshId := st.users[creator].id];
    CreatePreservesConsistency(st, owners, creator, data, freshId);
    AuthorizeAllowsExactlyOwner(st', owners', creator, freshId);
    if other in st.users {
      AuthorizeAllowsExactlyOwner(st', owners', other, freshId);
    }
  }

  /**
   * PUT checks in a fixed order and every rejection leaves the store as it
   * was: unknown user, then unknown assignment, then missing link.
   */
  lemma UpdateCheckOrder(st: StoreState, email: string, id: string, data: AssignmentData)
    ensures var (st', r) := UpdateOutcome(st, email, id, data);
            && (email !in st.users ==> r == Response(404, Error(UserNotFoundMessage)))
            && (email in st.users && id !in st.assignments ==> r == Response(404, Error(AssignmentNotFoundMessage)))
            && (email in st.users && id in st.assignments
                && LinkKey(st.users[email].id, st.assignments[id].id) !in st.links
                ==> r == Response(403, Error(UpdateForbiddenMessage)))
            && (r.status != 200 ==> st' == st)
  {
  }

  /** DELETE checks in the same fixed order, and every rejection leaves the store as it was. */
  lemma DeleteCheckOrder(st: StoreState, email: string, id: string)
    ensures var (st', r) := DeleteOutcome(st, email, id);
            && (email !in st.users ==> r == Response(404, Error(UserNotFoundMessage)))
            && (email in st.users && id !in st.assignments ==> r == Response(404, Error(AssignmentNotFoundMessage)))
            && (email in st.users && id in st.assignments
                && LinkKey(st.users[email].id, st.assignments[id].id) !in st.links
                ==> r == Response(403, Error(DeleteForbiddenMessage)))
            && (r.status != 200 ==> st' == st)
  {
  }

  /**
   * A successful PUT replaces the four fields of the targeted assignment
   * and nothing else: other assignments, the links and the users stay.
   */
  lemma UpdateChangesOnlyTarget(st: StoreState, email: string, id: string, data: AssignmentData)
    requires Authorize(st, email, id).Allowed?
    ensures var (st', r) := UpdateOutcome(st, email, id, data);
            && r == Response(200, One(Assignment(st.assignments[id].id, data)))
            && st'.users == st.users && st'.links == st.links
            && st'.assignments.Keys == st.assignments.Keys
            && st'.assignments[id] == Assignment(st.assignments[id].id, data)
            && (forall k :: k in st.assignments && k != id ==> st'.assignments[k] == st.assignments[k])
  {
  }

  /** PUT keeps the store consistent with the same owners. */
  lemma UpdatePreservesConsistency(st: StoreState, owners: map<string, string>, email: string, id: string,
                                   data: AssignmentData)
    requires Consistent(st, owners)
    ensures Consistent(UpdateOutcome(st, email, id, data).0, owners)
  {
  }

  /**
   * A successful DELETE removes exactly the targeted assignment and its
   * link, and answers 200.
   */
  lemma DeleteRemovesExactlyTarget(st: StoreState, email: string, id: string)
    requires Authorize(st, email, id).Allowed?
    ensures var (st', r) := DeleteOutcome(st, email, id);
            var key := LinkKey(st.users[email].id, st.assignments[id].id);
            && r == Response(200, Message(DeletedMessage))
            && st'.users == st.users
            && st'.assignments == st.assignments - {id}
            && |st'.assignments| == |st.assignments| - 1
            && st'.links == st.links - {key}
            && |st'.links| == |st.links| - 1
  {
  }

  /** Dropping one owner from the key set removes exactly that owner's key. */
  lemma OwnerKeysWithout(owners: map<string, string>, id: string)
    requires id in owners
    requires forall i :: i in owners ==> '_' !in owners[i]
    ensures (set i | i in owners - {id} :: LinkKey((owners - {id})[i], i))
         == (set i | i in owners :: LinkKey(owners[i], i)) - {LinkKey(owners[id], id)}
  {
    var owners' := owners - {id};
    var key := LinkKey(owners[id], id);
    var smaller := set i | i in owners' :: LinkKey(owners'[i], i);
    var all := set i | i in owners :: LinkKey(owners[i], i);
    forall k | k in smaller ensures k in all - {key} {
      var i :| i in owners' && k == LinkKey(owners'[i], i);
      assert k == LinkKey(owners[i], i);
      if k == key {
        LinkKeyInjective(owners[i], i, owners[id], id);
      }
    }
    forall k | k in all - {key} ensures k in smaller {
      var i :| i in owners && k == LinkKey(owners[i], i);
      assert i != id;
      assert owners'[i] == owners[i];
    }
  }

  /** DELETE keeps the store consistent, forgetting the owner of the removed assignment. */
  lemma DeletePreservesConsistency(st: StoreState, owners: map<string, string>, email: string, id: string)
    requires Consistent(st, owners)
    ensures var st' := DeleteOutcome(st, email, id).0;
            Consistent(st', if Authorize(st, email, id).Allowed? then owners - {id} else owners)
  {
    if Authorize(st, email, id).Allowed? {
      LinkOfConsistent(st, owners, st.users[email].id, id);
      OwnerKeysWithout(owners, id);
    }
  }
}
