/** The appointment manager: the component's state cells (the four form
    fields, the edit target and the local list of appointments) as the fields
    of a class, and its event handlers as methods. Every network call is
    replaced by its settled outcome, passed in as a `Response`. */
module Turnero {

  import opened Options
  import opened Turnos
  import Especialidades

  /** How a request settled: the parsed body, or the rejection the handler catches. */
  datatype Response<T> = Success(data: T) | Failure

  /** The request body: the four business fields, without an id. */
  datatype Cuerpo = Cuerpo(especialidad: string, medico: string, paciente: string, fecha: string)

  /** The request a submit sends: a create to the collection, or an update
      addressed to one appointment. */
  datatype Request = Post(body: Cuerpo) | Put(id: Id, body: Cuerpo)

  /** A snapshot of the form: the four fields and the edit target. */
  datatype Formulario = Formulario(especialidad: string, medico: string, paciente: string, fecha: string, editId: Option<Id>)

  /** What the form returns to after a reset: every field empty and no edit target. */
  const Vacio := Formulario("", "", "", "", None)

  /** JavaScript truthiness of the edit target: it is set and is not the empty string. */
  predicate Truthy(editId: Option<Id>)
  {
    editId.Some? && editId.value != ""
  }

  /** The form a begin-edit on `t` loads. */
  function Cargado(t: Turno): (f: Formulario)
  {
    Formulario(t.especialidad, t.medico, t.paciente, t.fecha, Some(t.id))
  }

  /** The request a submit of form `f` sends: an update addressed to the edit
      target exactly when that target is truthy, a create otherwise; either
      way the body is the four fields of the form. */
  function SubmitRequest(f: Formulario): (r: Request)
    ensures r.Put? <==> Truthy(f.editId)
    ensures r.Put? ==> f.editId == Some(r.id) && r.id != ""
    ensures r.body == Cuerpo(f.especialidad, f.medico, f.paciente, f.fecha)
  {
    var body := Cuerpo(f.especialidad, f.medico, f.paciente, f.fecha);
    if Truthy(f.editId) then Put(f.editId.value, body) else Post(body)
  }

  /** The store behaved as a keyed collection: an update echoes a record with
      the id it was addressed to, a create echoes a record with an id the list
      did not hold yet. */
  predicate Echoed(ts: seq<Turno>, req: Request, data: Turno)
  {
    match req
    case Put(id, _) => data.id == id
    case Post(_) => !HasId(ts, data.id)
  }

  class App {
    var especialidad: string
    var medico: string
    var paciente: string
    var fecha: string
    var turnos: seq<Turno>
    var editId: Option<Id>

    /** The current form. */
    function Form(): (f: Formulario)
      reads this
    {
      Formulario(especialidad, medico, paciente, fecha, editId)
    }

    /** The form is in update mode (the submit button reads "accept" and a
        cancel button is shown) rather than in create mode. */
    predicate Editing()
      reads this
    {
      Truthy(editId)
    }

    /** Every field the browser requires before it lets the form submit is filled in. */
    predicate Complete()
      reads this
    {
      especialidad != "" && medico != "" && paciente != "" && fecha != ""
    }

    /** Mounting: an empty form in create mode and no appointments. */
    constructor ()
      ensures Form() == Vacio && turnos == []
      ensures !Editing()
    {
      especialidad, medico, paciente, fecha := "", "", "", "";
      turnos := [];
      editId := None;
    }

    /** The one-shot load after mounting: a successful fetch replaces the
        list wholesale; a failure is only logged. The form is not touched. */
    method Load(res: Response<seq<Turno>>)
      modifies this
      ensures turnos == if res.Success? then res.data else old(turnos)
      ensures Form() == old(Form())
    {
      if res.Success? {
        turnos := res.data;
      }
    }

    /** Empties the four fields and clears the edit target; the list stays. */
    method ResetFormulario()
      modifies this
      ensures Form() == Vacio && !Editing()
      ensures turnos == old(turnos)
    {
      especialidad := "";
      medico := "";
      paciente := "";
      fecha := "";
      editId := None;
    }

    /** The specialty selector offers the empty choice and the table's keys. */
    method ChangeEspecialidad(v: string)
      requires v == "" || v in Especialidades.Names()
      modifies this
      ensures Form() == old(Form()).(especialidad := v)
      ensures turnos == old(turnos)
    {
      especialidad := v;
    }

    /** The doctor selector is disabled while no specialty is chosen and offers
        the empty choice and the chosen specialty's doctors. */
    method ChangeMedico(v: string)
      requires especialidad in Especialidades.Names()
      requires v == "" || v in Especialidades.MedicosOpciones(especialidad).value
      modifies this
      ensures Form() == old(Form()).(medico := v)
      ensures turnos == old(turnos)
    {
      medico := v;
    }

    method ChangePaciente(v: string)
      modifies this
      ensures Form() == old(Form()).(paciente := v)
      ensures turnos == old(turnos)
    {
      paciente := v;
    }

    method ChangeFecha(v: string)
      modifies this
      ensures Form() == old(Form()).(fecha := v)
      ensures turnos == old(turnos)
    {
      fecha := v;
    }

    /** Submit: sends SubmitRequest(Form()) and, once it settles successfully,
        replaces the entries carrying the edit target by the echoed record
        (update) or appends the echoed record (create), then resets the form.
        A caught failure leaves list and form exactly as they were. */
    method HandleSubmit(res: Response<Turno>) returns (req: Request)
      requires Complete()
      modifies this
      ensures req == SubmitRequest(old(Form()))
      ensures res.Failure? ==> turnos == old(turnos) && Form() == old(Form())
      ensures res.Success? ==> Form() == Vacio && !Editing()
      ensures res.Success? && req.Put? ==> turnos == ReplaceById(old(turnos), req.id, res.data)
      ensures res.Success? && req.Post? ==> turnos == old(turnos) + [res.data]
      ensures res.Success? && UniqueIds(old(turnos)) && Echoed(old(turnos), req, res.data) ==> UniqueIds(turnos)
    {
      var body := Cuerpo(especialidad, medico, paciente, fecha);
      if Truthy(editId) {
        req := Put(editId.value, body);
        if res.Success? {
          if UniqueIds(turnos) && res.data.id == editId.value {
            ReplaceKeepsUnique(turnos, editId.value, res.data);
          }
          turnos := ReplaceById(turnos, editId.value, res.data);
        }
      } else {
        req := Post(body);
        if res.Success? {
          if UniqueIds(turnos) && !HasId(turnos, res.data.id) {
            AppendFresh(turnos, res.data);
          }
          turnos := turnos + [res.data];
        }
      }
      if res.Success? {
        ResetFormulario();
      }
    }

    /** Begin-edit: loads the first entry carrying `id` into the form and makes
        its id the edit target; an id that no entry carries changes nothing.
        The list is never touched. */
    method HandleEdit(id: Id)
      modifies this
      ensures turnos == old(turnos)
      ensures FindById(turnos, id).None? ==> Form() == old(Form())
      ensures FindById(turnos, id).Some? ==> Form() == Cargado(FindById(turnos, id).value) && editId == Some(id)
    {
      var turno := FindById(turnos, id);
      if turno.Some? {
        especialidad := turno.value.especialidad;
        medico := turno.value.medico;
        paciente := turno.value.paciente;
        fecha := turno.value.fecha;
        editId := Some(turno.value.id);
      }
    }

    /** Delete: once the request settles successfully, drops the entries
        carrying `id` and resets the form if `id` was the edit target. A caught
        failure leaves list and form exactly as they were. */
    method HandleDelete(id: Id, res: Response<()>)
      modifies this
      ensures res.Failure? ==> turnos == old(turnos) && Form() == old(Form())
      ensures res.Success? ==> turnos == RemoveById(old(turnos), id)
      ensures res.Success? && old(editId) == Some(id) ==> Form() == Vacio
      ensures res.Success? && old(editId) != Some(id) ==> Form() == old(Form())
      ensures UniqueIds(old(turnos)) ==> UniqueIds(turnos)
    {
      if res.Success? {
        if UniqueIds(turnos) {
          RemoveKeepsUnique(turnos, id);
        }
        turnos := RemoveById(turnos, id);
        if editId == Some(id) {
          ResetFormulario();
        }
      }
    }

    /** Cancel: back to an empty form in create mode, with no request. */
    method HandleCancel()
      modifies this
      ensures Form() == Vacio && !Editing()
      ensures turnos == old(turnos)
    {
      ResetFormulario();
    }
  }

  /** A create, an edit, an update and a delete of one appointment, with the
      values a store would echo. */
  method Scenario()
  {
    var app := new App();
    app.Load(Success([]));
    assert "Cardiología" == Especialidades.Table[1].0;
    app.ChangeEspecialidad("Cardiología");
    app.ChangeMedico("Dr. Eduardo Pino");
    app.ChangePaciente("Juan Pérez");
    app.ChangeFecha("2024-05-01");
    var creado := Turno("1", "Cardiología", "Dr. Eduardo Pino", "Juan Pérez", "2024-05-01");
    var req := app.HandleSubmit(Success(creado));
    assert req == Post(Cuerpo("Cardiología", "Dr. Eduardo Pino", "Juan Pérez", "2024-05-01"));
    assert app.turnos == [creado] && app.Form() == Vacio;

    app.HandleEdit("1");
    assert app.Form() == Cargado(creado) && app.Editing();

    app.ChangePaciente("Juana Pérez");
    var editado := creado.(paciente := "Juana Pérez");
    req := app.HandleSubmit(Success(editado));
    assert req.Put? && req.id == "1";
    assert app.turnos == [editado] && !app.Editing();

    app.HandleEdit("1");
    app.HandleDelete("1", Failure);
    assert app.turnos == [editado] && app.Form() == Cargado(editado);
    app.HandleDelete("1", Success(()));
    assert app.turnos == [] && app.Form() == Vacio;
  }

  /** Begin-edit on a stored record whose specialty the table does not list
      leaves the form with a specialty that has no doctor options. */
  method UnknownSpecialty()
  {
    var app := new App();
    var t := Turno("7", "Pediatría", "Dra. Ana Ruiz", "Juan Pérez", "2024-05-01");
    app.Load(Success([t]));
    app.HandleEdit("7");
    assert app.especialidad == "Pediatría" && app.Editing();
    assert Especialidades.MedicosOpciones(app.especialidad).None?;
  }
}
