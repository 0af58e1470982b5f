/**
 * The Employee collection as an object: a map from `_id` to document that the
 * handlers update in place, the next identifier to hand out, and the library
 * the validators use. Create, Update and Delete are proved to produce exactly
 * the transitions that EmployeeRoutes specifies, and Get answers `GetReply`;
 * List is specified directly: sorted by `joiningDate` descending and a
 * permutation of the stored documents.
 */
module EmployeeStore {
  import opened Wrappers
  import opened EmployeeModel
  import opened BodyValidation
  import opened EmployeeRoutes

  /** `find().sort('-joiningDate')`: newest joining date first. */
  predicate SortedByJoiningDesc(docs: seq<Doc>) {
    forall i, j :: 0 <= i < j < |docs| ==>
      docs[i].employee.fields.joiningDate >= docs[j].employee.fields.joiningDate
  }

  function JoiningDate(d: Doc): Time {
    d.employee.fields.joiningDate
  }

  /** Inserts `d` into a listing sorted newest-first, before any equal date. */
  function InsertByJoining(docs: seq<Doc>, d: Doc): (r: seq<Doc>)
    requires SortedByJoiningDesc(docs)
    ensures |r| == |docs| + 1
    ensures SortedByJoiningDesc(r)
    ensures multiset(r) == multiset(docs) + multiset{d}
  {
    if docs == [] then [d]
    else if JoiningDate(d) >= JoiningDate(docs[0]) then [d] + docs
    else
      var rest := InsertByJoining(docs[1..], d);
      assert docs == [docs[0]] + docs[1..];
      forall i | 0 <= i < |rest| ensures JoiningDate(rest[i]) <= JoiningDate(docs[0]) {
        assert rest[i] in multiset(rest);
        if rest[i] != d {
          assert rest[i] in multiset(docs[1..]);
          var k :| 0 <= k < |docs[1..]| && docs[1..][k] == rest[i];
          assert docs[k + 1] == rest[i];
        }
      }
      PrependSorted(docs[0], rest);
      [docs[0]] + rest
  }

  lemma PrependSorted(d: Doc, docs: seq<Doc>)
    requires SortedByJoiningDesc(docs)
    requires forall i :: 0 <= i < |docs| ==> JoiningDate(docs[i]) <= JoiningDate(d)
    ensures SortedByJoiningDesc([d] + docs)
  {
    var r := [d] + docs;
    forall i, j | 0 <= i < j < |r| ensures JoiningDate(r[i]) >= JoiningDate(r[j]) {
      if i > 0 { assert r[i] == docs[i - 1]; }
      assert r[j] == docs[j - 1];
    }
  }

  /** The documents for the identifiers `ids` of `m`. */
  ghost function DocsOf(m: map<Id, Employee>, ids: set<Id>): set<Doc> {
    set id | id in ids && id in m :: Doc(id, m[id])
  }

  lemma DocsOfAddOne(m: map<Id, Employee>, ids: set<Id>, id: Id)
    requires id in m && id !in ids
    ensures multiset(DocsOf(m, ids + {id})) == multiset(DocsOf(m, ids)) + multiset{Doc(id, m[id])}
  {
    assert DocsOf(m, ids + {id}) == DocsOf(m, ids) + {Doc(id, m[id])};
    assert Doc(id, m[id]) !in DocsOf(m, ids);
  }

  /** A listing that is a permutation of the documents holds each stored document and nothing else. */
  lemma ListingMembers(m: map<Id, Employee>, docs: seq<Doc>)
    requires multiset(docs) == multiset(DocsOf(m, m.Keys))
    ensures forall id :: id in m ==> Doc(id, m[id]) in docs
    ensures forall d :: d in docs ==> d.id in m && m[d.id] == d.employee
  {
    forall id | id in m ensures Doc(id, m[id]) in docs {
      assert Doc(id, m[id]) in multiset(DocsOf(m, m.Keys));
    }
    forall d | d in docs ensures d.id in m && m[d.id] == d.employee {
      assert d in multiset(docs);
    }
  }

  class Store {
    const lib: Library
    var employees: map<Id, Employee>
    var nextId: Id

    ghost predicate Valid()
      reads this
    {
      StoreInvariant(State(employees, nextId))
    }

    /** The persisted state the handlers transform. */
    function Snapshot(): State
      reads this
    {
      State(employees, nextId)
    }

    /** An empty collection. */
    constructor (lib: Library)
      ensures Valid() && this.lib == lib
      ensures employees == map[] && nextId == 0
    {
      this.lib := lib;
      employees := map[];
      nextId := 0;
    }

    /** `GET /employees`. */
    method List() returns (reply: Reply)
      ensures reply.Listing?
      ensures SortedByJoiningDesc(reply.docs)
      ensures multiset(reply.docs) == multiset(DocsOf(employees, employees.Keys))
      ensures |reply.docs| == |employees|
      ensures forall id :: id in employees ==> Doc(id, employees[id]) in reply.docs
      ensures forall d :: d in reply.docs ==> d.id in employees && employees[d.id] == d.employee
    {
      var docs: seq<Doc> := [];
      var pending := employees.Keys;
      ghost var listed: set<Id> := {};
      while pending != {}
        invariant listed + pending == employees.Keys && listed !! pending
        invariant SortedByJoiningDesc(docs)
        invariant multiset(docs) == multiset(DocsOf(employees, listed))
        invariant |docs| == |listed|
        decreases pending
      {
        var id :| id in pending;
        DocsOfAddOne(employees, listed, id);
        docs := InsertByJoining(docs, Doc(id, employees[id]));
        pending := pending - {id};
        listed := listed + {id};
      }
      ListingMembers(employees, docs);
      return Listing(docs);
    }

    /** `GET /employees/:id`. */
    method Get(target: IdParam) returns (reply: Reply)
      ensures reply == GetReply(Snapshot(), target)
    {
      match target
      case Malformed =>
        return ServerError;
      case Key(id) =>
        if id !in employees {
          return Message(404, NotFoundText);
        }
        return Found(Doc(id, employees[id]));
    }

    /** `POST /employees`. */
    method Create(body: Body) returns (reply: Reply)
      requires Valid()
      modifies this
      ensures Valid()
      ensures Step(Snapshot(), reply) == CreateStep(lib, old(Snapshot()), body)
    {
      var errors := BodyErrors(lib, body);
      if errors != [] {
        return Invalid(errors);
      }
      // `new Employee(req.body)` draws a fresh identifier
      var id := nextId;
      nextId := nextId + 1;
      var fields := Cast(lib, body);
      if fields.None? {
        return ServerError;
      }
      var employee := Employee(fields.value, []);
      if !CanSave(employees, id, employee) {
        return ServerError;
      }
      employees := employees[id := employee];
      return Created(Doc(id, employee));
    }

    /** `PUT /employees/:id`. */
    method Update(target: IdParam, body: Body, now: Time) returns (reply: Reply)
      requires Valid()
      modifies this
      ensures Valid()
      ensures Step(Snapshot(), reply) == UpdateStep(lib, old(Snapshot()), target, body, now)
    {
      ghost var spec := UpdateStep(lib, Snapshot(), target, body, now);
      var errors := BodyErrors(lib, body);
      if errors != [] {
        return Invalid(errors);
      }
      if target.Malformed? {
        // `findById` throws a cast error, caught as a server error
        return ServerError;
      }
      var id := target.id;
      if id !in employees {
        return Message(404, NotFoundText);
      }
      var employee := employees[id];
      // append the pre-image (push)
      employee := employee.(history := employee.history + [NewHistoryEntry(employee.fields, Some(now), now)]);
      // `Object.assign(employee, req.body)`
      var fields := Cast(lib, body);
      if fields.None? {
        return ServerError;
      }
      employee := employee.(fields := fields.value);
      assert employee == Revised(employees[id], fields.value, now);
      if !CanSave(employees, id, employee) {
        assert spec == Step(Snapshot(), ServerError);
        return ServerError;
      }
      assert spec == Step(Snapshot().(employees := employees[id := employee]), Found(Doc(id, employee)));
      employees := employees[id := employee];
      return Found(Doc(id, employee));
    }

    /** `DELETE /employees/:id`. */
    method Delete(target: IdParam) returns (reply: Reply)
      requires Valid()
      modifies this
      ensures Valid()
      ensures Step(Snapshot(), reply) == DeleteStep(old(Snapshot()), target)
    {
      if target.Malformed? {
        return ServerError;
      }
      employees := employees - {target.id};
      return Message(200, RemovedText);
    }
  }
}
