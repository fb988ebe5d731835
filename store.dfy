/**
 * The backing store as the handlers of app.js change it: three collections,
 * updated in place by the POST, PUT and DELETE handlers and read by GET and
 * PATCH. Each handler first extracts the email from its Authorization header;
 * the request has already passed the authentication middleware.
 */
module AssignmentStore {
  import opened Wrappers
  import opened Credentials
  import opened Ownership
  import opened Assignments

  class Store {
    var users: map<string, User>
    var assignments: map<string, Assignment>
    var links: set<string>
    /** Who created each assignment; the links encode it. */
    ghost var owners: map<string, string>

    function State(): StoreState
      reads this
    {
      StoreState(users, assignments, links)
    }

    ghost predicate Valid()
      reads this
    {
      Consistent(State(), owners)
    }

    /** A store holding the loaded users and no assignments yet. */
    constructor (loaded: map<string, User>)
      requires forall e :: e in loaded ==> '_' !in loaded[e].id
      ensures Valid()
      ensures State() == StoreState(loaded, map[], {}) && owners == map[]
    {
      users, assignments, links := loaded, map[], {};
      owners := map[];
    }

    /** POST /v1/assignments; `freshId` is the id the store generates for the new row. */
    method Create(authorization: Option<string>, decode: string -> string, data: AssignmentData, freshId: string)
      returns (resp: Response)
      requires Valid()
      requires freshId !in assignments
      modifies this
      ensures Valid()
      ensures (State(), resp) == CreateOutcome(old(State()), Extract(authorization, decode).email, data, freshId)
      ensures owners == if resp.status == 201
                        then old(owners)[freshId := old(users)[Extract(authorization, decode).email].id]
                        else old(owners)
    {
      var email := Extract(authorization, decode).email;
      if email !in users {
        return Response(404, Error(UserNotFoundMessage));
      }
      var user := users[email];
      CreatePreservesConsistency(State(), owners, email, data, freshId);
      var newAssignment := Assignment(freshId, data);
      assignments := assignments[freshId := newAssignment];
      var concatenatedId := LinkKey(user.id, newAssignment.id);
      links := links + {concatenatedId};
      owners := owners[freshId := user.id];
      resp := Response(201, Created(concatenatedId, newAssignment, concatenatedId));
    }

    /** PUT /v1/assignments/:id */
    method Update(authorization: Option<string>, decode: string -> string, id: string, data: AssignmentData)
      returns (resp: Response)
      requires Valid()
      modifies this
      ensures Valid() && owners == old(owners)
      ensures (State(), resp) == UpdateOutcome(old(State()), Extract(authorization, decode).email, id, data)
    {
      UpdatePreservesConsistency(State(), owners, Extract(authorization, decode).email, id, data);
      var email := Extract(authorization, decode).email;
      if email !in users {
        return Response(404, Error(UserNotFoundMessage));
      }
      var user := users[email];
      if id !in assignments {
        return Response(404, Error(AssignmentNotFoundMessage));
      }
      var assignment := assignments[id];
      var concatenatedId := LinkKey(user.id, assignment.id);
      if concatenatedId !in links {
        return Response(403, Error(UpdateForbiddenMessage));
      }
      assignment := assignment.(data := data);
      assignments := assignments[id := assignment];
      resp := Response(200, One(assignment));
    }

    /** DELETE /v1/assignments/:id */
    method Delete(authorization: Option<string>, decode: string -> string, id: string)
      returns (resp: Response)
      requires Valid()
      modifies this
      ensures Valid()
      ensures owners == if resp.status == 200 then old(owners) - {id} else old(owners)
      ensures (State(), resp) == DeleteOutcome(old(State()), Extract(authorization, decode).email, id)
    {
      var email := Extract(authorization, decode).email;
      DeletePreservesConsistency(State(), owners, email, id);
      if email !in users {
        return Response(404, Error(UserNotFoundMessage));
      }
      var user := users[email];
      if id !in assignments {
        return Response(404, Error(AssignmentNotFoundMessage));
      }
      var assignment := assignments[id];
      var concatenatedId := LinkKey(user.id, assignment.id);
      if concatenatedId !in links {
        return Response(403, Error(DeleteForbiddenMessage));
      }
      assignments := assignments - {id};
      links := links - {concatenatedId};
      owners := owners - {id};
      resp := Response(200, Message(DeletedMessage));
    }

    /** GET /v1/assignments: every assignment, to any authenticated caller. */
    method GetAll() returns (resp: Response)
      ensures resp.status == 200 && resp.body.Many?
      ensures forall a :: a in resp.body.all <==> exists id :: id in assignments && assignments[id] == a
    {
      resp := Response(200, Many(assignments.Values));
    }

    /** GET /v1/assignments/:id: a lookup by id, with no ownership check. */
    method GetById(id: string) returns (resp: Response)
      ensures id in assignments ==> resp == Response(200, One(assignments[id]))
      ensures id !in assignments ==> resp == Response(404, Error(AssignmentNotFoundMessage))
    {
      if id !in assignments {
        return Response(404, Error(AssignmentNotFoundMessage));
      }
      resp := Response(200, One(assignments[id]));
    }

    /** PATCH /v1/assignments/:id: refused whatever the credentials, the body and the store hold. */
    method Patch(authorization: Option<string>, id: string, data: AssignmentData) returns (resp: Response)
      ensures resp == Response(405, Error(PatchMessage))
    {
      resp := Response(405, Error(PatchMessage));
    }
  }
}
