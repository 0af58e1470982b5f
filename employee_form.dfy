/**
 * The add/edit employee form: its initial state, loading a fetched record
 * into it, client-side validation, and the request a submit sends.
 */
module EmployeeForm {
  import opened Wrappers
  import opened JsStrings

  /** Milliseconds since the epoch, standing for a dayjs value. */
  type Time = int

  /** `formData`. */
  datatype FormData = FormData(
    name: string,
    email: string,
    address: string,
    experience: real,
    lastWorkCompany: string,
    dateOfResignation: Time,
    joiningDate: Time)

  /** The state the form starts in: empty text, zero experience, both dates `dayjs()`. */
  function InitialForm(now: Time): FormData {
    FormData("", "", "", 0.0, "", now, now)
  }

  /** `res.data` of `GET /api/employees/:id`: any key may be absent. */
  datatype FetchedEmployee = FetchedEmployee(
    name: Option<string>,
    email: Option<string>,
    address: Option<string>,
    experience: Option<real>,
    lastWorkCompany: Option<string>,
    dateOfResignation: Option<Time>,
    joiningDate: Option<Time>)

  /**
   * `setFormData` after the fetch: `value || ''` for text, `value || 0` for
   * experience (the falsy values '' and 0 map to themselves), and
   * `dayjs(value)`, which is the current time when the key is absent.
   */
  function LoadFetched(rec: FetchedEmployee, now: Time): FormData {
    FormData(
      rec.name.GetOr(""),
      rec.email.GetOr(""),
      rec.address.GetOr(""),
      rec.experience.GetOr(0.0),
      rec.lastWorkCompany.GetOr(""),
      rec.dateOfResignation.GetOr(now),
      rec.joiningDate.GetOr(now))
  }

  /** The record the server sends for a form's worth of data, every key present. */
  function Complete(f: FormData): FetchedEmployee {
    FetchedEmployee(Some(f.name), Some(f.email), Some(f.address), Some(f.experience),
      Some(f.lastWorkCompany), Some(f.dateOfResignation), Some(f.joiningDate))
  }

  /** Loading a complete record shows exactly its values. */
  lemma LoadCompleteRoundTrip(f: FormData, now: Time)
    ensures LoadFetched(Complete(f), now) == f
  {
  }

  /** Loading a record with every key absent gives the blank form. */
  lemma LoadEmptyIsInitial(now: Time)
    ensures LoadFetched(FetchedEmployee(None, None, None, None, None, None, None), now) == InitialForm(now)
  {
  }

  /** A key of `newErrors`. */
  datatype FormField = Name | Email | Address | Experience | LastWorkCompany

  function Message(f: FormField): string {
    match f
    case Name => "Name is required"
    case Email => "Valid email is required"
    case Address => "Address is required"
    case Experience => "Experience must be positive"
    case LastWorkCompany => "Last company is required"
  }

  /** The check for field `f` fails. */
  predicate Fails(form: FormData, f: FormField) {
    match f
    case Name => Trim(form.name) == ""
    case Email => !Includes(form.email, '@')
    case Address => Trim(form.address) == ""
    case Experience => form.experience < 0.0
    case LastWorkCompany => Trim(form.lastWorkCompany) == ""
  }

  /** The failing fields among `fs`, each with its message. */
  function ErrorsAmong(form: FormData, fs: set<FormField>): map<FormField, string> {
    map f | f in fs && Fails(form, f) :: Message(f)
  }

  /** Every failing field, each with its message. */
  function FormErrors(form: FormData): map<FormField, string> {
    ErrorsAmong(form, {Name, Email, Address, Experience, LastWorkCompany})
  }

  /** One line of `validate`: `if (failed) newErrors.f = message`. */
  function Noted(newErrors: map<FormField, string>, failed: bool, f: FormField): map<FormField, string> {
    if failed then newErrors[f := Message(f)] else newErrors
  }

  /** Running one more check adds its error exactly when it fails. */
  lemma ErrorsAmongStep(form: FormData, fs: set<FormField>, f: FormField)
    ensures ErrorsAmong(form, fs + {f}) == Noted(ErrorsAmong(form, fs), Fails(form, f), f)
  {
    var after := ErrorsAmong(form, fs + {f});
    var expected := Noted(ErrorsAmong(form, fs), Fails(form, f), f);
    assert after.Keys == expected.Keys;
    assert forall k :: k in after ==> after[k] == expected[k];
  }

  /** The checks in the order `validate` runs them produce exactly the failing fields. */
  lemma {:induction false} ChecksInOrder(form: FormData)
    ensures FormErrors(form) ==
      Noted(Noted(Noted(Noted(Noted(map[],
        Fails(form, Name), Name),
        Fails(form, Email), Email),
        Fails(form, Address), Address),
        Fails(form, Experience), Experience),
        Fails(form, LastWorkCompany), LastWorkCompany)
  {
    var e0 := ErrorsAmong(form, {});
    assert e0 == map[];
    ErrorsAmongStep(form, {}, Name);
    assert {} + {Name} == {Name};
    ErrorsAmongStep(form, {Name}, Email);
    assert {Name} + {Email} == {Name, Email};
    ErrorsAmongStep(form, {Name, Email}, Address);
    assert {Name, Email} + {Address} == {Name, Email, Address};
    ErrorsAmongStep(form, {Name, Email, Address}, Experience);
    assert {Name, Email, Address} + {Experience} == {Name, Email, Address, Experience};
    ErrorsAmongStep(form, {Name, Email, Address, Experience}, LastWorkCompany);
    assert {Name, Email, Address, Experience} + {LastWorkCompany} == {Name, Email, Address, Experience, LastWorkCompany};
  }

  /** `validate`: fills `newErrors` one check at a time; true iff it stayed empty. */
  method Validate(form: FormData) returns (newErrors: map<FormField, string>, ok: bool)
    ensures newErrors == FormErrors(form)
    ensures ok <==> |newErrors| == 0
  {
    newErrors := map[];
    if Trim(form.name) == "" {
      newErrors := newErrors[Name := Message(Name)];
    }
    if !Includes(form.email, '@') {
      newErrors := newErrors[Email := Message(Email)];
    }
    if Trim(form.address) == "" {
      newErrors := newErrors[Address := Message(Address)];
    }
    if form.experience < 0.0 {
      newErrors := newErrors[Experience := Message(Experience)];
    }
    if Trim(form.lastWorkCompany) == "" {
      newErrors := newErrors[LastWorkCompany := Message(LastWorkCompany)];
    }
    ChecksInOrder(form);
    ok := |newErrors| == 0;
  }

  /** The text has a character that is not white space. */
  predicate HasVisibleChar(s: string) {
    exists i :: 0 <= i < |s| && !IsWhiteSpace(s[i])
  }

  /**
   * The form passes validation exactly when name, address and last company
   * each have a visible character, the email contains '@', and experience is
   * not negative (so 0 is accepted, any negative value is not).
   */
  lemma FormValidIff(form: FormData)
    ensures FormErrors(form) == map[] <==>
      && HasVisibleChar(form.name) && '@' in form.email && HasVisibleChar(form.address)
      && form.experience >= 0.0 && HasVisibleChar(form.lastWorkCompany)
  {
    TrimEmptyIff(form.name);
    TrimEmptyIff(form.address);
    TrimEmptyIff(form.lastWorkCompany);
    if FormErrors(form) == map[] {
      assert Name !in FormErrors(form) && Address !in FormErrors(form);
      assert Email !in FormErrors(form) && Experience !in FormErrors(form);
      assert LastWorkCompany !in FormErrors(form);
    } else {
      var f :| f in FormErrors(form);
    }
  }

  /** The text a required-text field reads. */
  function TextOf(form: FormData, f: FormField): string
    requires f in {Name, Address, LastWorkCompany}
  {
    if f == Name then form.name
    else if f == Address then form.address
    else form.lastWorkCompany
  }

  /** A required text field that is empty or only white space is reported with its message. */
  lemma BlankFieldReported(form: FormData, f: FormField)
    requires f in {Name, Address, LastWorkCompany}
    requires AllWhiteSpace(TextOf(form, f))
    ensures f in FormErrors(form) && FormErrors(form)[f] == Message(f)
  {
    TrimEmptyIff(TextOf(form, f));
  }

  datatype HttpMethod = Put | Post

  /** An axios call: HTTP method, URL and the JSON body. */
  datatype Request = Request(verb: HttpMethod, url: string, body: FormData)

  const EmployeesUrl := "/api/employees"

  /** `if (id)`: a route parameter that is present and not the empty string. */
  predicate IsEditing(id: Option<string>) {
    id.Some? && id.value != ""
  }

  /** The save request: PUT to the record's URL when editing, POST to the collection otherwise. */
  function SaveRequest(id: Option<string>, form: FormData): (r: Request)
    ensures r.body == form
    ensures r.verb == Put <==> IsEditing(id)
    ensures r.verb == Put ==> r.url == EmployeesUrl + "/" + id.value
    ensures r.verb == Post ==> r.url == EmployeesUrl
  {
    if IsEditing(id) then Request(Put, EmployeesUrl + "/" + id.value, form)
    else Request(Post, EmployeesUrl, form)
  }

  /** `handleSubmit`: validates, and sends a request only when validation passes. */
  method HandleSubmit(id: Option<string>, form: FormData) returns (errors: map<FormField, string>, sent: Option<Request>)
    ensures errors == FormErrors(form)
    ensures sent.None? <==> errors != map[]
    ensures sent.Some? ==> sent.value == SaveRequest(id, form)
  {
    var ok;
    errors, ok := Validate(form);
    if !ok {
      return errors, None;
    }
    sent := Some(SaveRequest(id, form));
  }

  /** The record id can be read back from the PUT URL. */
  lemma PutUrlNamesRecord(id: string, form: FormData)
    requires id != ""
    ensures var url := SaveRequest(Some(id), form).url;
      |url| > |EmployeesUrl| + 1 && url[|EmployeesUrl| + 1..] == id
  {
  }
}
