/**
 * The Employee document: seven required paths, a unique `email`, and an
 * append-only `history` of snapshots. The same schema is declared in
 * backend/models/Employee.js and inline in backend/index.js; one set of
 * datatypes models both.
 */
module EmployeeModel {
  import opened Wrappers

  /** Dates and timestamps, as milliseconds since the epoch. */
  type Time = int

  /** Document identifier (`_id`), assigned by the store on creation. */
  type Id = nat

  /** The seven data paths of an Employee, as stored after Mongoose casting. */
  datatype Fields = Fields(
    name: string,
    email: string,
    address: string,
    experience: real,
    lastWorkCompany: string,
    dateOfResignation: Time,
    joiningDate: Time)

  /** One element of `history`: `_id: false`, so only `changedAt` and `data`. */
  datatype HistoryEntry = HistoryEntry(changedAt: Time, data: Fields)

  datatype Employee = Employee(fields: Fields, history: seq<HistoryEntry>)

  /**
   * Mongoose's `required: true` validator. In the typed model the number and
   * date paths are always present; a String path counts as missing when it
   * is the empty string.
   */
  predicate HasRequiredFields(f: Fields) {
    f.name != "" && f.email != "" && f.address != "" && f.lastWorkCompany != ""
  }

  /** A history element built from `data`; `changedAt` defaults to the clock (`Date.now`). */
  function NewHistoryEntry(data: Fields, changedAt: Option<Time>, clock: Time): (h: HistoryEntry)
    ensures h.data == data
    ensures changedAt.None? ==> h.changedAt == clock
    ensures changedAt.Some? ==> h.changedAt == changedAt.value
  {
    HistoryEntry(changedAt.GetOr(clock), data)
  }

  /** The unique index on `email`: no two stored Employees share an email. */
  predicate UniqueEmails(m: map<Id, Employee>) {
    forall i, j :: i in m && j in m && i != j ==> m[i].fields.email != m[j].fields.email
  }

  /** Some document other than `id` already holds `email`. */
  predicate EmailTakenByOther(m: map<Id, Employee>, id: Id, email: string) {
    exists j :: j in m && j != id && m[j].fields.email == email
  }

  /**
   * `save()` of document `e` under `id` succeeds: schema validation passes
   * and the unique index is not violated (otherwise Mongoose rejects with a
   * validation error or a duplicate-key error).
   */
  predicate CanSave(m: map<Id, Employee>, id: Id, e: Employee) {
    HasRequiredFields(e.fields) && !EmailTakenByOther(m, id, e.fields.email)
  }

  /** A successful save keeps emails unique. */
  lemma SavePreservesUniqueness(m: map<Id, Employee>, id: Id, e: Employee)
    requires CanSave(m, id, e)
    ensures UniqueEmails(m) ==> UniqueEmails(m[id := e])
  {
    var m' := m[id := e];
    forall i, j | UniqueEmails(m) && i in m' && j in m' && i != j
      ensures m'[i].fields.email != m'[j].fields.email
    {
      if i == id {
        assert !(j in m && j != id && m[j].fields.email == e.fields.email);
      } else if j == id {
        assert !(i in m && i != id && m[i].fields.email == e.fields.email);
      }
    }
  }

  /** Deleting documents never breaks uniqueness. */
  lemma RemovePreservesUniqueness(m: map<Id, Employee>, id: Id)
    ensures UniqueEmails(m) ==> UniqueEmails(m - {id})
  {
  }
}
