/**
 * The employee CRUD handlers as state transitions over the collection.
 * `State` is the persisted collection plus the identifier the next
 * `new Employee(...)` receives. The mutating handlers (POST, PUT, DELETE)
 * map the old state and the request to the new state and the HTTP reply;
 * the single-record read `GetReply` maps a state to a reply. The listing is
 * specified in EmployeeStore. Callers are taken to be authenticated already.
 */
module EmployeeRoutes {
  import opened Wrappers
  import opened EmployeeModel
  import opened BodyValidation

  /** The `:id` path segment: a castable ObjectId, or text that is not one. */
  datatype IdParam = Key(id: Id) | Malformed

  /** An Employee document as sent back by `res.json`: its `_id` and its contents. */
  datatype Doc = Doc(id: Id, employee: Employee)

  /** What a handler sends back. */
  datatype Reply =
    | Created(doc: Doc)                    // 201 with the new document
    | Found(doc: Doc)                      // 200 with one document
    | Listing(docs: seq<Doc>)              // 200 with an array of documents
    | Message(status: nat, text: string)   // JSON `{ message }` with the given status
    | Invalid(errors: seq<FieldError>)     // 400 `{ errors }`
    | ServerError                          // 500 'Server error' (any exception caught)
  {
    function Status(): nat {
      match this
      case Created(_) => 201
      case Found(_) => 200
      case Listing(_) => 200
      case Message(status, _) => status
      case Invalid(_) => 400
      case ServerError => 500
    }
  }

  const NotFoundText := "Employee not found"
  const RemovedText := "Employee removed"

  datatype State = State(employees: map<Id, Employee>, nextId: Id)

  /** What every handler preserves: unique emails, valid documents, identifiers never reused. */
  predicate StoreInvariant(s: State) {
    && UniqueEmails(s.employees)
    && forall id :: id in s.employees ==> id < s.nextId && HasRequiredFields(s.employees[id].fields)
  }

  datatype Step = Step(state: State, reply: Reply)

  /** `GET /employees/:id`. */
  function GetReply(s: State, target: IdParam): (r: Reply)
    ensures r.Status() == 200 <==> target.Key? && target.id in s.employees
    ensures r.Status() == 200 ==> r == Found(Doc(target.id, s.employees[target.id]))
    ensures r.Status() != 200 ==> r == (if target.Key? then Message(404, NotFoundText) else ServerError)
  {
    match target
    case Malformed => ServerError
    case Key(id) => if id in s.employees then Found(Doc(id, s.employees[id])) else Message(404, NotFoundText)
  }

  /** `POST /employees`. History starts empty: creation does not seed it. */
  function CreateStep(lib: Library, s: State, body: Body): (r: Step)
    ensures r.reply.Invalid? <==> BodyErrors(lib, body) != []
    ensures r.reply.Invalid? ==> r.reply.errors == BodyErrors(lib, body) && r.state == s
    ensures r.reply.Created? || r.reply.Invalid? || r.reply.ServerError?
    ensures r.reply.Created? <==>
      BodyErrors(lib, body) == [] && Cast(lib, body).Some?
      && CanSave(s.employees, s.nextId, Employee(Cast(lib, body).value, []))
    ensures r.reply.Created? ==>
      && r.reply.doc.id == s.nextId && r.state.nextId == s.nextId + 1
      && Some(r.reply.doc.employee.fields) == Cast(lib, body)
      && r.reply.doc.employee.history == []
      && r.state.employees == s.employees[r.reply.doc.id := r.reply.doc.employee]
    ensures !r.reply.Created? ==> r.state.employees == s.employees
    ensures r.state.nextId == s.nextId + (if BodyErrors(lib, body) == [] then 1 else 0)
    ensures StoreInvariant(s) && r.reply.Created? ==> r.reply.doc.id !in s.employees
    ensures StoreInvariant(s) ==> StoreInvariant(r.state)
  {
    var errors := BodyErrors(lib, body);
    if errors != [] then Step(s, Invalid(errors))
    else
      var id := s.nextId;
      var s' := s.(nextId := s.nextId + 1);
      var fields := Cast(lib, body);
      if fields.None? then Step(s', ServerError)
      else
        var e := Employee(fields.value, []);
        if !CanSave(s.employees, id, e) then Step(s', ServerError)
        else
          SavePreservesUniqueness(s.employees, id, e);
          Step(s'.(employees := s.employees[id := e]), Created(Doc(id, e)))
  }

  /** The document `e` becomes after an update with `fields` at time `now`:
      the pre-image is appended to its history, then the fields are overwritten. */
  function Revised(e: Employee, fields: Fields, now: Time): Employee {
    Employee(fields, e.history + [NewHistoryEntry(e.fields, Some(now), now)])
  }

  /**
   * `PUT /employees/:id`: validate, then load, then push the pre-image onto
   * `history`, then overwrite the fields, then save.
   */
  function UpdateStep(lib: Library, s: State, target: IdParam, body: Body, now: Time): (r: Step)
    ensures r.reply.Invalid? <==> BodyErrors(lib, body) != []
    ensures r.reply.Invalid? ==> r.reply.errors == BodyErrors(lib, body)
    ensures r.reply.Message? <==> BodyErrors(lib, body) == [] && target.Key? && target.id !in s.employees
    ensures r.reply.Message? ==> r.reply == Message(404, NotFoundText)
    ensures r.reply.Found? || r.reply.Invalid? || r.reply.Message? || r.reply.ServerError?
    ensures r.reply.Found? <==>
      && BodyErrors(lib, body) == [] && target.Key? && target.id in s.employees
      && Cast(lib, body).Some?
      && CanSave(s.employees, target.id, Revised(s.employees[target.id], Cast(lib, body).value, now))
    ensures r.reply.Found? ==>
      && target.Key? && target.id in s.employees && r.reply.doc.id == target.id
      && var before := s.employees[target.id];
      && var after := r.reply.doc.employee;
      && Some(after.fields) == Cast(lib, body)
      && |after.history| == |before.history| + 1
      && after.history[..|before.history|] == before.history
      && after.history[|before.history|] == HistoryEntry(now, before.fields)
      && r.state == s.(employees := s.employees[target.id := after])
    ensures !r.reply.Found? ==> r.state == s
    ensures StoreInvariant(s) ==> StoreInvariant(r.state)
  {
    var errors := BodyErrors(lib, body);
    if errors != [] then Step(s, Invalid(errors))
    else if target.Malformed? then Step(s, ServerError)
    else if target.id !in s.employees then Step(s, Message(404, NotFoundText))
    else
      var id := target.id;
      var fields := Cast(lib, body);
      if fields.None? then Step(s, ServerError)
      else
        var e := Revised(s.employees[id], fields.value, now);
        if !CanSave(s.employees, id, e) then Step(s, ServerError)
        else
          SavePreservesUniqueness(s.employees, id, e);
          assert e.history[..|s.employees[id].history|] == s.employees[id].history;
          Step(s.(employees := s.employees[id := e]), Found(Doc(id, e)))
  }

  /** `DELETE /employees/:id`: removes the document with its whole history;
      reports success whether or not a document had that id. */
  function DeleteStep(s: State, target: IdParam): (r: Step)
    ensures target.Key? ==> r.reply == Message(200, RemovedText)
    ensures target.Key? ==> r.state == s.(employees := s.employees - {target.id})
    ensures target.Malformed? ==> r == Step(s, ServerError)
    ensures StoreInvariant(s) ==> StoreInvariant(r.state)
  {
    match target
    case Malformed => Step(s, ServerError)
    case Key(id) =>
      RemovePreservesUniqueness(s.employees, id);
      Step(s.(employees := s.employees - {id}), Message(200, RemovedText))
  }

  /** A mutating request. */
  datatype Op =
    | CreateOp(body: Body)
    | UpdateOp(target: IdParam, body: Body, now: Time)
    | DeleteOp(target: IdParam)

  function Apply(lib: Library, s: State, op: Op): Step {
    match op
    case CreateOp(body) => CreateStep(lib, s, body)
    case UpdateOp(target, body, now) => UpdateStep(lib, s, target, body, now)
    case DeleteOp(target) => DeleteStep(s, target)
  }

  /** The collection after serving `ops` one at a time. */
  function Run(lib: Library, s: State, ops: seq<Op>): State
    decreases |ops|
  {
    if ops == [] then s else Run(lib, Apply(lib, s, ops[0]).state, ops[1..])
  }

  /** How many of `ops` were successful updates of document `id`. */
  function UpdatesOf(lib: Library, s: State, ops: seq<Op>, id: Id): nat
    decreases |ops|
  {
    if ops == [] then 0
    else
      var step := Apply(lib, s, ops[0]);
      var counted := if ops[0].UpdateOp? && ops[0].target == Key(id) && step.reply.Found? then 1 else 0;
      counted + UpdatesOf(lib, step.state, ops[1..], id)
  }

  /** Every handler keeps the store invariant. */
  lemma {:induction false} RunPreservesInvariant(lib: Library, s: State, ops: seq<Op>)
    requires StoreInvariant(s)
    ensures StoreInvariant(Run(lib, s, ops))
    decreases |ops|
  {
    if ops != [] {
      RunPreservesInvariant(lib, Apply(lib, s, ops[0]).state, ops[1..]);
    }
  }

  /** Identifiers are never reused: a deleted document never comes back. */
  lemma {:induction false} NeverRecreated(lib: Library, s: State, ops: seq<Op>, id: Id)
    requires id !in s.employees && id < s.nextId
    ensures id !in Run(lib, s, ops).employees
    decreases |ops|
  {
    if ops != [] {
      NeverRecreated(lib, Apply(lib, s, ops[0]).state, ops[1..], id);
    }
  }

  /** One request changes the history of document `id` only by a successful update,
      which appends exactly one entry. */
  lemma OneStepHistory(lib: Library, s: State, op: Op, id: Id)
    requires StoreInvariant(s) && id in s.employees
    requires id in Apply(lib, s, op).state.employees
    ensures var before := s.employees[id].history;
      var after := Apply(lib, s, op).state.employees[id].history;
      var updated := op.UpdateOp? && op.target == Key(id) && Apply(lib, s, op).reply.Found?;
      && |after| == |before| + (if updated then 1 else 0)
      && after[..|before|] == before
  {
    var step := Apply(lib, s, op);
    match op
    case CreateOp(body) =>
      assert step.state.employees[id] == s.employees[id];
    case UpdateOp(target, body, now) =>
      if !(target == Key(id) && step.reply.Found?) {
        assert step.state.employees[id] == s.employees[id];
      }
    case DeleteOp(target) =>
  }

  /**
   * History is append-only: across any sequence of requests, a document that
   * survives keeps every earlier history entry unchanged, and its history has
   * grown by exactly the number of successful updates it received.
   */
  lemma {:induction false} HistoryAppendOnly(lib: Library, s: State, ops: seq<Op>, id: Id)
    requires StoreInvariant(s)
    requires id in s.employees && id in Run(lib, s, ops).employees
    ensures var before := s.employees[id].history;
      var after := Run(lib, s, ops).employees[id].history;
      |after| == |before| + UpdatesOf(lib, s, ops, id) && after[..|before|] == before
    decreases |ops|
  {
    if ops != [] {
      var s1 := Apply(lib, s, ops[0]).state;
      if id !in s1.employees {
        NeverRecreated(lib, s1, ops[1..], id);
        assert false;
      }
      OneStepHistory(lib, s, ops[0], id);
      HistoryAppendOnly(lib, s1, ops[1..], id);
      var h0, h1, h2 := s.employees[id].history, s1.employees[id].history, Run(lib, s, ops).employees[id].history;
      assert h2[..|h0|] == h2[..|h1|][..|h0|];
    }
  }

  /** A created document can be read back at once, with the submitted fields and no history. */
  lemma CreateThenGet(lib: Library, s: State, body: Body)
    requires CreateStep(lib, s, body).reply.Created?
    ensures var r := CreateStep(lib, s, body);
      GetReply(r.state, Key(r.reply.doc.id)) == Found(r.reply.doc)
      && Some(r.reply.doc.employee.fields) == Cast(lib, body)
      && r.reply.doc.employee.history == []
  {
  }

  /** After a delete, reading the same id gives 404. */
  lemma DeleteThenGet(s: State, id: Id)
    ensures GetReply(DeleteStep(s, Key(id)).state, Key(id)) == Message(404, NotFoundText)
  {
  }

  /** A create whose email another document already holds fails, and stores nothing. */
  lemma CreateDuplicateEmailFails(lib: Library, s: State, body: Body, other: Id)
    requires StoreInvariant(s)
    requires other in s.employees && s.employees[other].fields.email == body.email
    ensures var r := CreateStep(lib, s, body);
      (r.reply == ServerError || r.reply.Invalid?) && r.state.employees == s.employees
  {
    assert EmailTakenByOther(s.employees, s.nextId, body.email);
  }

  /** An update that would give a document another document's email fails
      and leaves everything as it was: no history entry, no field change.
      A valid, castable body on a stored id reaches the save, which answers 500. */
  lemma UpdateDuplicateEmailFails(lib: Library, s: State, id: Id, body: Body, now: Time, other: Id)
    requires other in s.employees && other != id && s.employees[other].fields.email == body.email
    ensures var r := UpdateStep(lib, s, Key(id), body, now);
      !r.reply.Found? && r.state == s
    ensures BodyErrors(lib, body) == [] && id in s.employees && Cast(lib, body).Some? ==>
      UpdateStep(lib, s, Key(id), body, now) == Step(s, ServerError)
  {
    assert EmailTakenByOther(s.employees, id, body.email);
  }

  /**
   * Updates are not idempotent: repeating a successful update with the same
   * body succeeds again and appends a second entry, which records the fields
   * the first update wrote.
   */
  lemma RepeatedUpdateAppendsTwice(lib: Library, s: State, id: Id, body: Body, t1: Time, t2: Time)
    requires UpdateStep(lib, s, Key(id), body, t1).reply.Found?
    ensures var first := UpdateStep(lib, s, Key(id), body, t1);
      var second := UpdateStep(lib, first.state, Key(id), body, t2);
      var before := s.employees[id];
      && second.reply.Found?
      && var after := second.reply.doc.employee;
      && |after.history| == |before.history| + 2
      && after.history[..|before.history|] == before.history
      && after.history[|before.history|] == HistoryEntry(t1, before.fields)
      && after.history[|before.history| + 1] == HistoryEntry(t2, after.fields)
  {
    var first := UpdateStep(lib, s, Key(id), body, t1);
    var m1 := first.state.employees;
    var e2 := Revised(m1[id], Cast(lib, body).value, t2);
    assert !EmailTakenByOther(m1, id, e2.fields.email) by {
      assert !EmailTakenByOther(s.employees, id, m1[id].fields.email);
      forall j | j in m1 && j != id ensures m1[j].fields.email != e2.fields.email {
        assert m1[j] == s.employees[j];
      }
    }
    assert CanSave(m1, id, e2);
    var second := UpdateStep(lib, first.state, Key(id), body, t2);
    var h0 := s.employees[id].history;
    assert second.reply.doc.employee.history[..|h0|] == first.reply.doc.employee.history[..|h0|];
  }
}
