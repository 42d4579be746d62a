# Turnero médico: the appointment manager as a verified state machine

This project models the appointment manager of a single-page medical
appointment ("turno") client. One component in `src/App.jsx` holds two
pieces of state: the local list of appointments (`turnos`), and a form draft
made of four business fields (`especialidad`, `medico`, `paciente`, `fecha`)
plus the edit target `editId`. Each user action is a transition on that state
once the remote store has answered. A static table maps each specialty to the
doctors who attend it.

The model has four modules:

- `Options` (options.dfy): the `Option` datatype used by the lookups.
- `Turnos` (turnos.dfy): the appointment record and the three list
  transformations the handlers apply: `find` by id (`FindById`), `map` that
  replaces by id (`ReplaceById`) and `filter` that removes by id
  (`RemoveById`). Each comes with lemmas: which entry is found, that
  replacement creates no duplicate, that the survivors of a removal keep
  their order and multiplicity, and that ids stay unique when the store
  behaves as a keyed collection.
- `Especialidades` (especialidades.dfy): the specialty-to-doctors table, in
  declaration order, and the doctor options offered for the selected
  specialty.
- `Turnero` (app.dfy): class `App`. Its six fields are the component's six
  state cells. Its methods are the mount, the initial load, the reset, the
  four field changes, and the submit, edit, delete and cancel handlers. Every
  network call is replaced by its settled outcome, passed in as
  `Response<T> = Success(data) | Failure`. `Failure` stands for the rejection
  the handler catches. `HandleSubmit` also returns the request it sends
  (`Post(body)` or `Put(id, body)`), as computed by `SubmitRequest`.
  `Scenario` is a client that drives one appointment through create, edit,
  update, a failed delete and a successful delete, and asserts the state
  after each step using only the methods' contracts. `UnknownSpecialty`
  loads a record whose specialty is not in the table and begins editing it;
  the form then has no doctor options.

Conventions taken from the code:

- Ids are strings: the mock store assigns string ids.
- The code tests `if (editId)`, which is JavaScript truthiness. For a string
  id that means "set and non-empty" (`Truthy`). A row whose id is the empty
  string can therefore be loaded by begin-edit, and a later submit still
  takes the create branch. The model keeps this behaviour.
- Delete compares `editId === id`, which is plain equality
  (`old(editId) == Some(id)`).
- Two behaviours of the code that are easy to misread:
  - A specialty that is not in the table has no option list. In the code
    `ESPECIALIDADES[esp]` is `undefined` there, not an empty list.
    `MedicosOpciones` returns `None` for it. The form reaches this state
    when begin-edit loads a stored record whose specialty the table does not
    list. `UnknownSpecialty` is a client that drives the form there.
  - An HTTP error status does not count as a failure. `fetch` resolves, the
    body is parsed and used. Only a rejected request or an unparsable body
    reaches the `catch`, and that is what `Failure` stands for.

## Model

| member | source | states |
|---|---|---|
| `Turnos.FindById` | src/App.jsx:67 | the lookup finds nothing exactly when no entry carries the id; what it finds carries the id and is an entry of the list |
| `Turnos.FindFirst` | src/App.jsx:67 | the entry found is the first one carrying the id |
| `Turnos.FindUnique` | src/App.jsx:67 | with unique ids, looking up the id of any entry finds exactly that entry |
| `Turnos.ReplaceById` | src/App.jsx:50 | same length and order; every entry carrying the id becomes the echoed record, every other entry is unchanged |
| `Turnos.ReplaceAbsent` | src/App.jsx:50 | an update addressed to an id no entry carries leaves the list as it was |
| `Turnos.ReplaceKeepsCount` | src/App.jsx:50 | an update echoed with the same id creates no duplicate: the number of entries carrying that id does not change |
| `Turnos.ReplaceKeepsUnique` | src/App.jsx:50 | an update echoed with the same id keeps the ids unique |
| `Turnos.ReplaceIdempotent` | src/App.jsx:50 | applying the same echoed update twice gives the list of applying it once |
| `Turnos.ReplaceThenFind` | src/App.jsx:50 | after an update of a present id, begin-edit on that id finds the echoed record (ids unique, echo keeps the id) |
| `Turnos.AppendFresh` | src/App.jsx:58 | appending a record with a new id keeps the ids unique, and begin-edit on that id then finds the new record |
| `Turnos.RemoveById` | src/App.jsx:80 | no entry of the result carries the removed id |
| `Turnos.RemoveLength` | src/App.jsx:80 | removal shortens the list by exactly the number of entries that carried the id |
| `Turnos.RemoveMembership` | src/App.jsx:80 | a record is in the result exactly when it was in the list and does not carry the id |
| `Turnos.RemoveMultiset` | src/App.jsx:80 | every record not carrying the id occurs in the result as often as before; records carrying it occur zero times |
| `Turnos.RemoveCons` | src/App.jsx:80 | one filter step: the head survives exactly when it does not carry the id |
| `Turnos.RemoveConcat` | src/App.jsx:80 | removal distributes over concatenation, so the survivors keep their relative order |
| `Turnos.RemoveAbsent` | src/App.jsx:80 | deleting an id no entry carries leaves the list as it was |
| `Turnos.RemoveKeepsUnique` | src/App.jsx:80 | deletion keeps the ids unique |
| `Turnos.CreateThenDelete` | src/App.jsx:80 | deleting a record right after creating it (with a new id) gives back the list from before the create |
| `Especialidades.Lookup` | src/App.jsx:91 | property access on the table finds nothing exactly when no row has that key (for names the object does not inherit) |
| `Especialidades.LookupAt` | src/App.jsx:4-11 | in a table with distinct keys, each key finds exactly its own doctor list |
| `Especialidades.Names` | src/App.jsx:106 | the selectable specialties are the table's keys in declaration order, and the empty string is not one of them |
| `Especialidades.TableDistinct` | src/App.jsx:4-11 | no specialty appears twice in the table |
| `Especialidades.MedicosOpciones` | src/App.jsx:91 | no specialty selected offers no doctors; a specialty of the table offers exactly its configured list, in the same order; any other specialty yields no list (`None`, the code's `undefined`) |
| `Turnero.SubmitRequest` | src/App.jsx:40-56 | submit sends an update addressed to the edit target exactly when the target is truthy, and a create otherwise; the body is the four form fields |
| `Turnero.App.constructor` | src/App.jsx:16-21 | on mount the form is empty, nothing is being edited and the list is empty |
| `Turnero.App.Load` | src/App.jsx:31-36 | a successful initial fetch replaces the list wholesale; a failure leaves it; the form is untouched |
| `Turnero.App.ResetFormulario` | src/App.jsx:23-29 | all four fields become empty and the edit target null; the list is untouched |
| `Turnero.App.ChangeEspecialidad` | src/App.jsx:99-108 | only the specialty changes, to the empty choice or a table key; the doctor is not cleared |
| `Turnero.App.ChangeMedico` | src/App.jsx:113-124 | only the doctor changes, to the empty choice or one of the selected specialty's doctors, and only while a specialty is selected |
| `Turnero.App.ChangePaciente` | src/App.jsx:130-136 | only the patient name changes |
| `Turnero.App.ChangeFecha` | src/App.jsx:141-147 | only the date changes |
| `Turnero.App.HandleSubmit` | src/App.jsx:38-64 | returns the request sent; on success, an update replaces the entries carrying the edit target by the echo, a create appends the echo, the form is reset, and unique ids stay unique if the store echoes as a keyed collection; on failure list and form are exactly as before |
| `Turnero.App.HandleEdit` | src/App.jsx:66-75 | an id that is present loads the first matching row's four fields into the form and makes its id the edit target; an absent id changes nothing; the list is never touched |
| `Turnero.App.HandleDelete` | src/App.jsx:77-85 | on success, exactly the entries carrying the id are removed; the form is reset if the id was the edit target and is unchanged otherwise; unique ids stay unique; on failure list and form are exactly as before |
| `Turnero.App.HandleCancel` | src/App.jsx:87-89 | the form is reset to empty create mode; the list is untouched |

## Left out

- `fetch`, JSON encoding and decoding, HTTP methods, headers and the API URL: foreign I/O. Each call is modelled only by its settled outcome (`Success(data)` or `Failure`), and by the request value `HandleSubmit` returns.
- The shape of the echoed body: any parsed body is trusted as an appointment record, as the code does (`data` is stored as is). A resolved request whose body is an error object is modelled as a `Success` carrying some record.
- Async interleaving: a response that arrives after later user actions, a stale list captured by a handler's closure, and two requests racing. `handleSubmit` and `handleDelete` `await` their requests, so other events can interleave in the code. The model assumes each handler runs to completion before the next event, so it is sequential.
- React rendering, JSX, the Bootstrap layout, the button labels and the table (src/App.jsx:93-199). The form's mode, which selects the button label and whether the cancel button is shown, is `Editing()`.
- Browser `required` validation is not modelled as code. `HandleSubmit` requires the four fields to be non-empty, because the browser does not fire the submit handler otherwise.
- `console.error` logging in the three `catch` branches (the load, submit and delete).
- No invariant ties the doctor to the specialty. Changing the specialty does not clear or revalidate the doctor in the code, so no such invariant holds.
- Especialidades.MedicosOpciones: names that every JavaScript object inherits (`constructor`, `toString`, `__proto__` and the like) are treated like any other name missing from the table, so they yield `None`. In the code `ESPECIALIDADES[name]` yields the inherited value there, not `undefined`.
- The render after `MedicosOpciones` yields `None`: the code then calls `.map` on `undefined` and the render throws. Rendering is not modelled, so the model only exhibits the state (`UnknownSpecialty`).
- Turnero.App.HandleSubmit: the uniqueness of ids after a submit is stated only under the hypothesis `Echoed`, because the code does not check what the store echoes.
- `e.preventDefault()` and the page reload it prevents.
