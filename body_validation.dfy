/**
 * The express-validator chains that guard `POST /employees` and
 * `PUT /employees/:id` (identical on both routes), `validationResult`, and
 * Mongoose's casting of the accepted body into typed fields.
 */
module BodyValidation {
  import opened Wrappers
  import opened EmployeeModel

  /**
   * The library functions the rules delegate to, left uninterpreted:
   * validator.js `isEmail`, `isISO8601`, `isNumeric`, and Mongoose's
   * Number and Date casts (which may fail).
   */
  datatype Library = Library(
    isEmail: string -> bool,
    isISO8601: string -> bool,
    isNumeric: string -> bool,
    toNumber: string -> Option<real>,
    toDate: string -> Option<Time>)

  /**
   * A request body with the seven employee keys. express-validator sees every
   * value as a string and an absent key as "", so each key is its text.
   */
  datatype Body = Body(
    name: string,
    email: string,
    address: string,
    experience: string,
    lastWorkCompany: string,
    dateOfResignation: string,
    joiningDate: string)

  /** The `path` of a validation error, in the order the chains are declared. */
  datatype BodyField =
    | NameField | EmailField | AddressField | ExperienceField
    | LastWorkCompanyField | DateOfResignationField | JoiningDateField

  function Rank(f: BodyField): nat {
    match f
    case NameField => 0
    case EmailField => 1
    case AddressField => 2
    case ExperienceField => 3
    case LastWorkCompanyField => 4
    case DateOfResignationField => 5
    case JoiningDateField => 6
  }

  function Value(body: Body, f: BodyField): string {
    match f
    case NameField => body.name
    case EmailField => body.email
    case AddressField => body.address
    case ExperienceField => body.experience
    case LastWorkCompanyField => body.lastWorkCompany
    case DateOfResignationField => body.dateOfResignation
    case JoiningDateField => body.joiningDate
  }

  /** One element of `errors.array()` in the 400 response. */
  datatype FieldError = FieldError(path: BodyField, value: string, msg: string)

  /** express-validator's default message. */
  const InvalidValue := "Invalid value"

  /** validator.js `isEmpty` with default options: length zero, white space counts. */
  predicate IsEmpty(s: string) {
    |s| == 0
  }

  /** The validation chain of field `f` accepts the body. */
  predicate Accepts(lib: Library, body: Body, f: BodyField) {
    match f
    case NameField => !IsEmpty(body.name)
    case EmailField => lib.isEmail(body.email)
    case AddressField => !IsEmpty(body.address)
    case ExperienceField => lib.isNumeric(body.experience)
    case LastWorkCompanyField => !IsEmpty(body.lastWorkCompany)
    case DateOfResignationField => lib.isISO8601(body.dateOfResignation)
    case JoiningDateField => lib.isISO8601(body.joiningDate)
  }

  /** The chains in the order the route declares them. */
  const DeclaredOrder: seq<BodyField> := [
    NameField, EmailField, AddressField, ExperienceField,
    LastWorkCompanyField, DateOfResignationField, JoiningDateField]

  predicate StrictlyRanked(fs: seq<BodyField>) {
    forall i, j :: 0 <= i < j < |fs| ==> Rank(fs[i]) < Rank(fs[j])
  }

  /** The error a failing chain reports. */
  function ErrorOf(body: Body, f: BodyField): FieldError {
    FieldError(f, Value(body, f), InvalidValue)
  }

  /** The errors of running the chains `fs` one after the other. */
  function ErrorsFor(lib: Library, body: Body, fs: seq<BodyField>): (errors: seq<FieldError>)
    requires StrictlyRanked(fs)
    ensures forall e :: e in errors ==> e.path in fs && !Accepts(lib, body, e.path) && e == ErrorOf(body, e.path)
    ensures forall f :: f in fs && !Accepts(lib, body, f) ==> ErrorOf(body, f) in errors
    ensures forall i, j :: 0 <= i < j < |errors| ==> Rank(errors[i].path) < Rank(errors[j].path)
  {
    if fs == [] then []
    else
      var rest := ErrorsFor(lib, body, fs[1..]);
      var head := if Accepts(lib, body, fs[0]) then [] else [ErrorOf(body, fs[0])];
      assert forall e :: e in rest ==> Rank(fs[0]) < Rank(e.path);
      head + rest
  }

  /** `validationResult(req).array()`: every violation, not only the first. */
  function BodyErrors(lib: Library, body: Body): (errors: seq<FieldError>)
    ensures forall f :: !Accepts(lib, body, f) <==> exists i :: 0 <= i < |errors| && errors[i].path == f
    ensures forall i :: 0 <= i < |errors| ==>
      errors[i].value == Value(body, errors[i].path) && errors[i].msg == InvalidValue
    ensures forall i, j :: 0 <= i < j < |errors| ==> Rank(errors[i].path) < Rank(errors[j].path)
  {
    forall f ensures f in DeclaredOrder {
      assert DeclaredOrder[Rank(f)] == f;
    }
    ErrorsFor(lib, body, DeclaredOrder)
  }

  /** The seven rules, written out. */
  predicate BodyAccepted(lib: Library, body: Body) {
    && body.name != "" && lib.isEmail(body.email) && body.address != ""
    && lib.isNumeric(body.experience) && body.lastWorkCompany != ""
    && lib.isISO8601(body.dateOfResignation) && lib.isISO8601(body.joiningDate)
  }

  lemma BodyAcceptedIffAll(lib: Library, body: Body)
    ensures BodyAccepted(lib, body) <==> forall f :: Accepts(lib, body, f)
  {
    if !BodyAccepted(lib, body) {
      assert !Accepts(lib, body, NameField) || !Accepts(lib, body, EmailField)
        || !Accepts(lib, body, AddressField) || !Accepts(lib, body, ExperienceField)
        || !Accepts(lib, body, LastWorkCompanyField) || !Accepts(lib, body, DateOfResignationField)
        || !Accepts(lib, body, JoiningDateField);
    }
  }

  /** The request passes validation exactly when all seven rules hold. */
  lemma BodyErrorsEmptyIff(lib: Library, body: Body)
    ensures BodyErrors(lib, body) == [] <==> BodyAccepted(lib, body)
  {
    BodyAcceptedIffAll(lib, body);
    var errors := BodyErrors(lib, body);
    if errors != [] {
      assert !Accepts(lib, body, errors[0].path);
    }
  }

  /**
   * Mongoose casting of the body onto the typed paths: strings are stored as
   * given, experience through the Number cast, dates through the Date cast.
   */
  function Cast(lib: Library, body: Body): Option<Fields>
  {
    match (lib.toNumber(body.experience), lib.toDate(body.dateOfResignation), lib.toDate(body.joiningDate))
    case (Some(experience), Some(resigned), Some(joined)) =>
      Some(Fields(body.name, body.email, body.address, experience, body.lastWorkCompany, resigned, joined))
    case _ => None
  }

  /** The cast succeeds exactly when the number and both dates cast; the text
      paths are stored as submitted, unchanged. */
  lemma CastKeepsSubmittedValues(lib: Library, body: Body)
    ensures var r := Cast(lib, body);
      && (r.Some? <==>
        lib.toNumber(body.experience).Some? && lib.toDate(body.dateOfResignation).Some?
        && lib.toDate(body.joiningDate).Some?)
      && (r.Some? ==>
        && r.value.name == body.name && r.value.email == body.email && r.value.address == body.address
        && r.value.lastWorkCompany == body.lastWorkCompany
        && Some(r.value.experience) == lib.toNumber(body.experience)
        && Some(r.value.dateOfResignation) == lib.toDate(body.dateOfResignation)
        && Some(r.value.joiningDate) == lib.toDate(body.joiningDate))
  {
  }
}
