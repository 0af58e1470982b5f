# Employee records: versioned store and form validation

A Dafny model of the employee-management application's core:

- the **Employee collection** behind the REST routes `GET /employees`,
  `GET /employees/:id`, `POST /employees`, `PUT /employees/:id` and
  `DELETE /employees/:id`. Every successful update first archives the
  record's seven fields in its append-only `history` and then overwrites them.
  Emails are unique across the collection.
- the two **client-side validators**: the employee form's `validate` and the
  login/register page's `validate`. The model also covers the request each
  page's submit sends and how a fetched record is loaded into the form.

## Layout

| file | module | models |
|---|---|---|
| `wrappers.dfy` | `Wrappers` | `Option`, for absent JSON keys and failed casts |
| `js_strings.dfy` | `JsStrings` | JavaScript `trim`, `includes` and `length` (UTF-16 units) |
| `employee_model.dfy` | `EmployeeModel` | the Employee schema: fields, history entries, required paths, the unique email index, the `changedAt` default |
| `body_validation.dfy` | `BodyValidation` | the express-validator chains shared by POST and PUT, `validationResult`, Mongoose casting |
| `employee_routes.dfy` | `EmployeeRoutes` | the mutating handlers (POST, PUT, DELETE) as pure transitions `State -> Step(State, Reply)` and the single-record read as `GetReply: State -> Reply`, plus lemmas over whole request sequences |
| `employee_store.dfy` | `EmployeeStore` | class `Store`: the collection as a mutable map. `Create`, `Update` and `Delete` are proved to perform exactly their transitions and `Get` answers `GetReply`. `List` is specified directly: sorted by `joiningDate` descending and a permutation of the stored documents |
| `employee_form.dfy` | `EmployeeForm` | the form's initial state, loading a fetched record, `validate`, `handleSubmit` |
| `auth_page.dfy` | `AuthPage` | `validate`, the login/register URL, `handleSubmit` |

How the source's environment is represented:

- The library code the rules call is a parameter. `Library` holds validator.js
  `isEmail`, `isISO8601` and `isNumeric`, and Mongoose's Number and Date casts,
  as uninterpreted functions. `isEmpty` is not a parameter: it is just length
  zero, and white space counts as content.
- A request body has exactly the seven employee keys, each kept as its text.
  express-validator reads an absent key as `""`.
- Stored fields are typed. `experience` is a `real` and dates are integer
  milliseconds.
- The clock (`new Date()`, `Date.now`, `dayjs()`) is a `now` parameter.
- MongoDB is an in-memory `map<Id, Employee>`. A counter `nextId` plays the
  ObjectId generator, so for bodies of the seven fields identifiers are never reused.
- A malformed `:id` is the `Malformed` parameter.

Behaviour of the code that the model keeps:

- For a body of the seven fields, `POST` stores a new record with an empty `history`.
- The backend checks `experience` only with `isNumeric`. Any numeric text is
  accepted, negative values included, and no string has a length bound. The
  form rejects a negative experience.
- The backend checks only that `name`, `address` and `lastWorkCompany` are
  non-empty, so white space alone passes. The form applies `trim` first.
- A duplicate email makes `save` throw, and the handler answers 500
  'Server error'.
- A malformed `:id` makes `findById` throw a cast error, and the handler
  answers 500.
- `DELETE` with a well-formed id answers 200 "Employee removed", whether or
  not a record has that id.
- A history entry holds exactly `changedAt` and `data` (`_id: false`).
- `backend/models/Employee.js` and the schema declared inline in
  `backend/index.js` are identical. One set of datatypes models both.

## Model

| member | source | states |
|---|---|---|
| `JsStrings.TrimEmptyIff` | frontend/src/components/EmployeeForm.jsx:58 | `s.trim()` is empty exactly when every character of `s` is JavaScript white space |
| `JsStrings.Utf16Length` | frontend/src/components/AuthPage.jsx:14 | JavaScript `length` counts each code point as one or two UTF-16 units, so it lies between `\|s\|` and `2\|s\|` |
| `JsStrings.Utf16LengthOfBmp` | frontend/src/components/AuthPage.jsx:14 | for text inside the Basic Multilingual Plane, `length` equals the number of characters |
| `EmployeeModel.NewHistoryEntry` | backend/models/Employee.js:11-15 | a history entry holds only `data` and `changedAt`, and `changedAt` defaults to the current time when not supplied |
| `EmployeeModel.SavePreservesUniqueness` | backend/models/Employee.js:4-10 | a save that passes the required check and the unique-email index keeps every stored email distinct |
| `EmployeeModel.RemovePreservesUniqueness` | backend/index.js:203 | removing a document keeps emails unique |
| `BodyValidation.BodyErrors` | backend/index.js:141-150 | the 400 error list names a field exactly when that field's rule fails, so every violation is listed, not just the first; each error carries the field's value as the validators read it and "Invalid value"; errors follow the declared order, each field at most once |
| `BodyValidation.BodyErrorsEmptyIff` | backend/index.js:163-172 | a body passes exactly when name, address and lastWorkCompany are non-empty, the email satisfies `isEmail`, experience satisfies `isNumeric` and both dates satisfy `isISO8601` |
| `BodyValidation.CastKeepsSubmittedValues` | backend/index.js:153 | casting succeeds exactly when the number and both dates cast; name, email, address and lastWorkCompany are stored exactly as submitted |
| `EmployeeRoutes.GetReply` | backend/index.js:127-138 | a stored id gives 200 with the full record including history; an unknown id gives 404 "Employee not found"; a malformed id gives 500 |
| `EmployeeRoutes.CreateStep` | backend/index.js:140-160 | an invalid body gives 400 with its error list and changes nothing; success (201) requires a valid body, successful casts and a savable document; it adds exactly one record under a fresh id, with the cast fields and empty history, and leaves every other record alone; failures store nothing; the store invariant is preserved |
| `EmployeeRoutes.UpdateStep` | backend/index.js:162-199 | validation runs before lookup: an invalid body gives 400 even for an unknown id; a valid body on an unknown id gives 404; the update succeeds (200) exactly when the body is valid, the id is stored, the casts succeed and the revised document can be saved; on success history grows by exactly one entry, the old entries are unchanged, the new entry is `(now, fields before the update)`, and the fields become the cast body; every failure leaves the state unchanged; the invariant is preserved |
| `EmployeeRoutes.DeleteStep` | backend/index.js:201-209 | a well-formed id removes that record with its whole history and answers 200 "Employee removed", whether or not the record existed; a malformed id gives 500 and changes nothing |
| `EmployeeRoutes.RunPreservesInvariant` | backend/index.js:28-35 | after any sequence of creates, updates and deletes, emails stay unique, stored records keep their required fields, and every id is below the generator |
| `EmployeeRoutes.NeverRecreated` | backend/index.js:203 | for bodies of the seven fields, a deleted document never reappears after any later sequence of requests |
| `EmployeeRoutes.OneStepHistory` | backend/index.js:178-193 | one request changes a surviving record's history only by a successful update of that record, which appends exactly one entry and keeps the existing ones |
| `EmployeeRoutes.HistoryAppendOnly` | backend/index.js:178-193 | across any request sequence, a surviving record keeps all its earlier history entries unchanged, and its history grows by exactly the number of successful updates it received |
| `EmployeeRoutes.CreateThenGet` | backend/index.js:153-155 | a created record can be read back at once, with the submitted fields and empty history |
| `EmployeeRoutes.DeleteThenGet` | backend/index.js:129-131 | after a delete, a get on the same id answers 404 |
| `EmployeeRoutes.CreateDuplicateEmailFails` | backend/index.js:154-158 | a create whose email another record already holds cannot give 201, and no record is stored |
| `EmployeeRoutes.UpdateDuplicateEmailFails` | backend/index.js:193-197 | an update to an email another record holds fails, and nothing persists: no history entry and no field change; with a valid, castable body on a stored id the save rejects it with 500 |
| `EmployeeRoutes.RepeatedUpdateAppendsTwice` | backend/index.js:179-193 | updates are not idempotent: repeating a successful update succeeds again and appends a second entry, which records the fields the first update wrote |
| `EmployeeStore.InsertByJoining` | backend/index.js:119 | inserting into a listing sorted by `joiningDate` descending keeps it sorted, is a permutation of the old listing plus the new document, and adds exactly one element |
| `EmployeeStore.ListingMembers` | backend/index.js:119-120 | a listing that is a permutation of the stored documents contains every stored record and nothing else |
| `EmployeeStore.Store.List` | backend/index.js:117-125 | the listing is ordered by `joiningDate` descending and is a permutation of the stored records: every record appears, with its history, and nothing else does |
| `EmployeeStore.Store.Get` | backend/index.js:127-138 | reads without changing anything and answers as `GetReply` specifies |
| `EmployeeStore.Store.Create` | backend/index.js:140-160 | performs exactly `CreateStep` in place: validate, draw a fresh id, cast, save; keeps the store invariant |
| `EmployeeStore.Store.Update` | backend/index.js:162-199 | performs exactly `UpdateStep` in place: validate, load, push the pre-image, overwrite the fields, save; keeps the store invariant |
| `EmployeeStore.Store.Delete` | backend/index.js:201-209 | performs exactly `DeleteStep` in place; keeps the store invariant |
| `EmployeeForm.LoadCompleteRoundTrip` | frontend/src/components/EmployeeForm.jsx:37-45 | loading a fetched record that has every key shows exactly its values |
| `EmployeeForm.LoadEmptyIsInitial` | frontend/src/components/EmployeeForm.jsx:14-45 | loading a record with every key absent gives the blank initial form: `''` for text, `0` for experience, the current time for both dates |
| `EmployeeForm.ChecksInOrder` | frontend/src/components/EmployeeForm.jsx:57-62 | running the five checks in source order yields exactly the map of failing fields to their messages |
| `EmployeeForm.Validate` | frontend/src/components/EmployeeForm.jsx:56-65 | the error map holds exactly the failing fields with their messages; the result is true iff the map is empty |
| `EmployeeForm.FormValidIff` | frontend/src/components/EmployeeForm.jsx:58-62 | the form is valid exactly when name, address and lastWorkCompany each have a non-white-space character, the email contains `'@'` (its only check), and experience is not negative, so 0 is accepted |
| `EmployeeForm.BlankFieldReported` | frontend/src/components/EmployeeForm.jsx:58-62 | an empty or white-space-only name, address or last company is reported with that field's message ("Name is required", "Address is required", "Last company is required") |
| `EmployeeForm.SaveRequest` | frontend/src/components/EmployeeForm.jsx:79-87 | with an id the form sends PUT `/api/employees/{id}`, otherwise POST `/api/employees`, carrying the form data |
| `EmployeeForm.HandleSubmit` | frontend/src/components/EmployeeForm.jsx:67-87 | no request is sent when validation fails; otherwise exactly the save request is sent |
| `EmployeeForm.PutUrlNamesRecord` | frontend/src/components/EmployeeForm.jsx:80 | the record id can be read back from the PUT URL |
| `AuthPage.Validate` | frontend/src/components/AuthPage.jsx:11-17 | the error map holds exactly the failing fields with their messages; the result is true iff the map is empty |
| `AuthPage.CredentialsValidIff` | frontend/src/components/AuthPage.jsx:12-16 | credentials pass exactly when the email contains `'@'` and the password is at least 6 units long; when both fail, both errors are reported together |
| `AuthPage.PasswordBoundary` | frontend/src/components/AuthPage.jsx:14 | for ordinary characters, a password of length 5 is rejected and length 6 is accepted |
| `AuthPage.AuthUrl` | frontend/src/components/AuthPage.jsx:24-25 | `isLogin` posts to `/api/auth/login`, otherwise to `/api/auth/register` |
| `AuthPage.HandleSubmit` | frontend/src/components/AuthPage.jsx:19-25 | no request is sent when validation fails; otherwise the credentials are posted to the chosen URL |

## Left out

- Express wiring, CORS, body parsing, the router mount, `listen`, and the `console.error` logging in every backend `catch` block (backend/index.js:122, 135, 157, 196, 206): framework plumbing and output, outside the core.
- The MongoDB connection and any store failure other than save validation and the duplicate-key error. `find`, `findById` and `findByIdAndDelete` are modelled as never failing except for the cast error on a malformed `:id`.
- The `authenticate` middleware and the register/login routes. They wrap bcrypt and jsonwebtoken, which are foreign calls, so every caller is taken to be authenticated.
- The bodies of `isEmail`, `isISO8601`, `isNumeric` and the Number and Date casts. They are library code and are uninterpreted parameters here.
- Body keys beyond the seven fields. `new Employee(req.body)` (backend/index.js:153) and `Object.assign` (backend/index.js:192) would copy them too, `_id` and `history` included, so a client could pick a POST's `_id` or seed its `history`. The body is modelled as exactly the seven fields, and the statements about empty initial history, never-reused identifiers and `EmployeeRoutes.NeverRecreated` hold for such bodies.
- JavaScript coercion. Form experience is a number, though the input hands over a string. The dayjs-to-ISO conversion before sending and the `NaN`/`null` falsy cases in the `||` defaults are also not modelled.
- Rendering, routing, axios transport, `localStorage`, navigation, and the `submit` error shown after a failed request.
- `Dashboard.jsx` and `EmployeeHistory.jsx`: presentation only. Their one-line delete filter and newest-first `reverse` add nothing to the store model.
- Mongoose's `__v` version key in replies.
- Concurrent requests. Two racing updates follow last-writer-wins; the model serves one request at a time.
- `EmployeeStore.Store.List`: the order among records with equal `joiningDate` is left unspecified, because MongoDB does not fix it either.
- BodyValidation.BodyErrors: for an absent key the model's error carries `""`, the value the validators test, whereas express-validator reports the key's real value, `undefined`, which JSON then drops. The model's errors also leave out the `location: 'body'` field (and `type: 'field'` in express-validator 7), because it is the same for every error.
