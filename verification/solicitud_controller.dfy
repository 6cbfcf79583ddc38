/** The request ("solicitud") endpoints of the backend: a student creates a
    request, an administrator changes its status or assigns a reviewer, and
    every one of these writes appends one row to the request's history
    (bitácora). The `solicitudes` and `solicitud_history` tables are held by
    `SolicitudesDb`; the two read endpoints are functions of the table. */
module SolicitudController {
  import opened Common
  import Codes
  import Sorting

  /** Owner used when the body or the query names none. */
  const DemoOwnerEmail := "esoto@ufidelitas.ac.cr"
  /** Owner id every request is created with. */
  const DemoOwnerUserId := 1
  /** The actor recorded for administrator actions. */
  const AdminEmail := "admin@ufidelitas.ac.cr"

  const MissingFieldsMessage := "institucion_nombre, justificacion, objetivo_general y vencimiento son requeridos"
  const MissingReviewerMessage := "reviewerEmail es requerido"
  const CreatedAction := "Solicitud creada y enviada"
  const CreatedMessage := "Creación de anteproyecto por el estudiante"
  const StatusActionPrefix := "Estado cambiado a: "
  const AssignedAction := "Solicitud asignada a revisor"
  const AssignedMessagePrefix := "Asignada a: "

  /** The body of `POST /solicitudes`. */
  datatype SolicitudBody = SolicitudBody(
    estudianteNombre: Field,
    estudianteCedula: Field,
    carrera: Field,
    institucionId: Option<int>,   // a JSON number; 0 is falsy
    institucionNombre: Field,
    tituloProyecto: Field,
    justificacion: Field,
    objetivoGeneral: Field,
    objetivosEspecificos: Field,
    beneficiario: Field,
    estrategiaSolucion: Field,
    prioridad: Field,
    vencimiento: Field,
    ownerEmail: Field)

  /** A row of `solicitudes`; `None` is SQL NULL. */
  datatype SolicitudRow = SolicitudRow(
    id: nat,
    codigoPublico: string,
    estudianteNombre: Option<string>,
    estudianteCedula: Option<string>,
    carrera: string,
    institucionId: Option<int>,
    institucionNombre: string,
    tituloProyecto: Option<string>,
    justificacion: string,
    objetivoGeneral: string,
    objetivosEspecificos: string,
    beneficiario: string,
    estrategiaSolucion: string,
    prioridad: string,
    estado: Option<string>,
    vencimiento: string,
    ownerUserId: int,
    ownerEmail: string,
    assignedTo: Option<string>,
    assignDate: Option<int>,
    createdAt: int,
    updatedAt: int)

  /** A row of `solicitud_history`. */
  datatype HistoryRow = HistoryRow(solicitudId: int, accion: string, usuario: string, mensaje: string, createdAt: int)

  /** The guard of `createSolicitud`: one of the four required members is
      missing, null or empty. */
  predicate MissingRequired(b: SolicitudBody)
  {
    !Truthy(b.institucionNombre) || !Truthy(b.justificacion) || !Truthy(b.objetivoGeneral) || !Truthy(b.vencimiento)
  }

  /** The owner e-mail a request is created with. */
  function OwnerEmailOf(b: SolicitudBody): (e: string)
    ensures e != ""
    ensures Truthy(b.ownerEmail) ==> e == b.ownerEmail.s
    ensures !Truthy(b.ownerEmail) ==> e == DemoOwnerEmail
  {
    OrElse(b.ownerEmail, DemoOwnerEmail)
  }

  /** The row `createSolicitud` inserts, with the defaults it applies. */
  function NewRow(b: SolicitudBody, id: nat, codigo: string, now: int): (r: SolicitudRow)
    requires !MissingRequired(b)
    ensures r.id == id && r.codigoPublico == codigo
    ensures r.estado == Some("Enviado")
    ensures r.assignedTo == None && r.assignDate == None
    ensures r.ownerUserId == DemoOwnerUserId && r.ownerEmail == OwnerEmailOf(b)
    ensures r.prioridad != ""
    ensures Truthy(b.prioridad) ==> r.prioridad == b.prioridad.s
    ensures !Truthy(b.prioridad) ==> r.prioridad == "Medium"
    ensures r.institucionNombre == b.institucionNombre.s && r.justificacion == b.justificacion.s
    ensures r.objetivoGeneral == b.objetivoGeneral.s && r.vencimiento == b.vencimiento.s
    ensures r.carrera == OrElse(b.carrera, "") && r.objetivosEspecificos == OrElse(b.objetivosEspecificos, "")
    ensures r.beneficiario == OrElse(b.beneficiario, "") && r.estrategiaSolucion == OrElse(b.estrategiaSolucion, "")
    ensures r.institucionId == if b.institucionId.Some? && b.institucionId.value != 0 then b.institucionId else None
    ensures r.estudianteNombre == AsColumn(b.estudianteNombre) && r.estudianteCedula == AsColumn(b.estudianteCedula)
    ensures r.tituloProyecto == AsColumn(b.tituloProyecto)
    ensures r.createdAt == now && r.updatedAt == now
  {
    SolicitudRow(
      id := id,
      codigoPublico := codigo,
      estudianteNombre := AsColumn(b.estudianteNombre),
      estudianteCedula := AsColumn(b.estudianteCedula),
      carrera := OrElse(b.carrera, ""),
      institucionId := if b.institucionId.Some? && b.institucionId.value != 0 then b.institucionId else None,
      institucionNombre := b.institucionNombre.s,
      tituloProyecto := AsColumn(b.tituloProyecto),
      justificacion := b.justificacion.s,
      objetivoGeneral := b.objetivoGeneral.s,
      objetivosEspecificos := OrElse(b.objetivosEspecificos, ""),
      beneficiario := OrElse(b.beneficiario, ""),
      estrategiaSolucion := OrElse(b.estrategiaSolucion, ""),
      prioridad := OrElse(b.prioridad, "Medium"),
      estado := Some("Enviado"),
      vencimiento := b.vencimiento.s,
      ownerUserId := DemoOwnerUserId,
      ownerEmail := OwnerEmailOf(b),
      assignedTo := None,
      assignDate := None,
      createdAt := now,
      updatedAt := now)
  }

  /** `UPDATE solicitudes SET estado = ?, updated_at = ? WHERE id = ?`. */
  function WithEstado(rows: seq<SolicitudRow>, id: int, estado: Option<string>, now: int): (r: seq<SolicitudRow>)
    ensures |r| == |rows|
    ensures forall i :: 0 <= i < |rows| && rows[i].id != id ==> r[i] == rows[i]
    ensures forall i :: 0 <= i < |rows| && rows[i].id == id ==> r[i] == rows[i].(estado := estado, updatedAt := now)
  {
    seq(|rows|, i requires 0 <= i < |rows| =>
      if rows[i].id == id then rows[i].(estado := estado, updatedAt := now) else rows[i])
  }

  /** `UPDATE solicitudes SET assigned_to = ?, assign_date = NOW(), updated_at = ? WHERE id = ?`. */
  function WithReviewer(rows: seq<SolicitudRow>, id: int, reviewer: string, now: int): (r: seq<SolicitudRow>)
    ensures |r| == |rows|
    ensures forall i :: 0 <= i < |rows| && rows[i].id != id ==> r[i] == rows[i]
    ensures forall i :: 0 <= i < |rows| && rows[i].id == id ==>
      r[i] == rows[i].(assignedTo := Some(reviewer), assignDate := Some(now), updatedAt := now)
  {
    seq(|rows|, i requires 0 <= i < |rows| =>
      if rows[i].id == id then rows[i].(assignedTo := Some(reviewer), assignDate := Some(now), updatedAt := now)
      else rows[i])
  }

  /** `SELECT * FROM solicitudes WHERE id = ?` followed by `rows[0]`. */
  function FindById(rows: seq<SolicitudRow>, id: int): (r: Option<SolicitudRow>)
    ensures r.Some? ==> r.value in rows && r.value.id == id
    ensures r.None? ==> forall i :: 0 <= i < |rows| ==> rows[i].id != id
    decreases |rows|
  {
    if rows == [] then None
    else if rows[0].id == id then Some(rows[0])
    else FindById(rows[1..], id)
  }

  /** The history of one request, in insertion order. */
  function HistoryOf(history: seq<HistoryRow>, id: int): (r: seq<HistoryRow>)
    ensures forall k :: 0 <= k < |r| ==> r[k].solicitudId == id && r[k] in history
    ensures forall e :: e in history && e.solicitudId == id ==> e in r
    decreases |history|
  {
    if history == [] then []
    else
      var init := HistoryOf(history[..|history| - 1], id);
      var last := history[|history| - 1];
      if last.solicitudId == id then init + [last] else init
  }

  /** Appending one history row extends the history of its request by exactly
      that row and leaves the history of every other request as it was. */
  lemma HistoryOfAppend(history: seq<HistoryRow>, e: HistoryRow, id: int)
    ensures HistoryOf(history + [e], id) ==
      if e.solicitudId == id then HistoryOf(history, id) + [e] else HistoryOf(history, id)
  {
    assert (history + [e])[..|history + [e]| - 1] == history;
  }

  /** The requests of one owner, in table order. */
  function OwnedBy(rows: seq<SolicitudRow>, email: string): (r: seq<SolicitudRow>)
    ensures forall x :: x in r <==> x in rows && x.ownerEmail == email
    ensures multiset(r) <= multiset(rows)
    ensures forall x: SolicitudRow :: x.ownerEmail == email ==> multiset(r)[x] == multiset(rows)[x]
    decreases |rows|
  {
    if rows == [] then []
    else
      assert rows == [rows[0]] + rows[1..];
      (if rows[0].ownerEmail == email then [rows[0]] else []) + OwnedBy(rows[1..], email)
  }

  /** `ORDER BY created_at DESC`. */
  const NewerFirst := (a: SolicitudRow, b: SolicitudRow) => a.createdAt >= b.createdAt

  lemma NewerFirstIsTotalPreorder()
    ensures Sorting.TotalPreorder(NewerFirst)
  {
  }

  /** `getMySolicitudes`: the requests owned by the query's e-mail (or the
      demo owner), newest first. */
  function MySolicitudes(rows: seq<SolicitudRow>, emailParam: Field): (r: seq<SolicitudRow>)
    ensures forall k :: 0 <= k < |r| ==> r[k].ownerEmail == OrElse(emailParam, DemoOwnerEmail)
    ensures forall x :: x in r <==> x in rows && x.ownerEmail == OrElse(emailParam, DemoOwnerEmail)
    ensures multiset(r) == multiset(OwnedBy(rows, OrElse(emailParam, DemoOwnerEmail)))
    ensures Sorting.SortedBy(r, NewerFirst)
  {
    NewerFirstIsTotalPreorder();
    var owned := OwnedBy(rows, OrElse(emailParam, DemoOwnerEmail));
    var r := Sorting.SortBy(owned, NewerFirst);
    assert forall x :: x in r <==> x in owned by {
      forall x ensures x in r <==> x in owned {
        assert x in r <==> x in multiset(r);
        assert x in owned <==> x in multiset(owned);
      }
    }
    r
  }

  /** `getAllSolicitudes`: every request, newest first. */
  function AllSolicitudes(rows: seq<SolicitudRow>): (r: seq<SolicitudRow>)
    ensures multiset(r) == multiset(rows)
    ensures Sorting.SortedBy(r, NewerFirst)
  {
    NewerFirstIsTotalPreorder();
    Sorting.SortBy(rows, NewerFirst)
  }

  /** The two tables. `nextId` is the AUTO_INCREMENT counter of `solicitudes`. */
  class SolicitudesDb {
    var solicitudes: seq<SolicitudRow>
    var history: seq<HistoryRow>
    var nextId: nat

    /** Row ids are distinct, positive and below the counter. */
    ghost predicate Valid()
      reads this
    {
      && nextId >= 1
      && (forall i :: 0 <= i < |solicitudes| ==> 1 <= solicitudes[i].id < nextId)
      && (forall i, j :: 0 <= i < j < |solicitudes| ==> solicitudes[i].id != solicitudes[j].id)
    }

    constructor ()
      ensures Valid()
      ensures solicitudes == [] && history == [] && nextId == 1
    {
      solicitudes, history, nextId := [], [], 1;
    }

    /** `createSolicitud`. `draw` is the random draw of `generateCodigo` and
        `now` the database clock. */
    method CreateSolicitud(body: SolicitudBody, draw: nat, now: int) returns (resp: Response<SolicitudRow>)
      requires Valid()
      requires draw < 90000
      modifies this
      ensures Valid()
      ensures MissingRequired(body) ==>
        && resp == Err(400, MissingFieldsMessage)
        && solicitudes == old(solicitudes) && history == old(history) && nextId == old(nextId)
      ensures !MissingRequired(body) ==>
        var row := NewRow(body, old(nextId), Codes.GenerateCodigo(draw), now);
        && solicitudes == old(solicitudes) + [row]
        && history == old(history) + [HistoryRow(row.id, CreatedAction, row.ownerEmail, CreatedMessage, now)]
        && nextId == old(nextId) + 1
        && resp == Ok(201, row)
    {
      if MissingRequired(body) {
        return Err(400, MissingFieldsMessage);
      }
      var codigo := Codes.GenerateCodigo(draw);
      var row := NewRow(body, nextId, codigo, now);
      solicitudes := solicitudes + [row];
      nextId := nextId + 1;
      history := history + [HistoryRow(row.id, CreatedAction, row.ownerEmail, CreatedMessage, now)];
      resp := Ok(201, row);
    }

    /** `updateStatus`: sets `estado` whatever it was before and appends one
        history row. The two writes are separate statements. */
    method UpdateStatus(id: int, status: Field, observation: Field, now: int) returns (resp: Response<Option<SolicitudRow>>)
      requires Valid()
      modifies this
      ensures Valid()
      ensures solicitudes == WithEstado(old(solicitudes), id, AsColumn(status), now)
      ensures history == old(history) +
        [HistoryRow(id, StatusActionPrefix + Interpolated(status), AdminEmail, OrElse(observation, ""), now)]
      ensures nextId == old(nextId)
      ensures resp == Ok(200, FindById(solicitudes, id))
    {
      solicitudes := WithEstado(solicitudes, id, AsColumn(status), now);
      history := history + [HistoryRow(id, StatusActionPrefix + Interpolated(status), AdminEmail, OrElse(observation, ""), now)];
      resp := Ok(200, FindById(solicitudes, id));
    }

    /** `assignReviewer`: rejects an empty reviewer; otherwise records the
        reviewer and the assignment time and appends one history row. */
    method AssignReviewer(id: int, reviewerEmail: Field, now: int) returns (resp: Response<Option<SolicitudRow>>)
      requires Valid()
      modifies this
      ensures Valid()
      ensures nextId == old(nextId)
      ensures !Truthy(reviewerEmail) ==>
        resp == Err(400, MissingReviewerMessage) && solicitudes == old(solicitudes) && history == old(history)
      ensures Truthy(reviewerEmail) ==>
        && solicitudes == WithReviewer(old(solicitudes), id, reviewerEmail.s, now)
        && history == old(history) + [HistoryRow(id, AssignedAction, AdminEmail, AssignedMessagePrefix + reviewerEmail.s, now)]
        && resp == Ok(200, FindById(solicitudes, id))
    {
      if !Truthy(reviewerEmail) {
        return Err(400, MissingReviewerMessage);
      }
      solicitudes := WithReviewer(solicitudes, id, reviewerEmail.s, now);
      history := history + [HistoryRow(id, AssignedAction, AdminEmail, AssignedMessagePrefix + reviewerEmail.s, now)];
      resp := Ok(200, FindById(solicitudes, id));
    }
  }

  /** A status change is visible both on the row and at the end of the
      request's own history, whatever the status was before. */
  lemma StatusChangeRecorded(rows: seq<SolicitudRow>, history: seq<HistoryRow>, id: int, status: string, obs: Field, now: int)
    requires exists i :: 0 <= i < |rows| && rows[i].id == id
    ensures FindById(WithEstado(rows, id, Some(status), now), id).Some?
    ensures FindById(WithEstado(rows, id, Some(status), now), id).value.estado == Some(status)
    ensures var h := HistoryOf(history + [HistoryRow(id, StatusActionPrefix + status, AdminEmail, OrElse(obs, ""), now)], id);
      |h| == |HistoryOf(history, id)| + 1 && h[|h| - 1].accion == StatusActionPrefix + status
  {
    var e := HistoryRow(id, StatusActionPrefix + Interpolated(Str(status)), AdminEmail, OrElse(obs, ""), now);
    HistoryOfAppend(history, e, id);
  }

  /** Assigning a reviewer never changes any request's status. */
  lemma AssignKeepsEstado(rows: seq<SolicitudRow>, id: int, reviewer: string, now: int)
    ensures forall i :: 0 <= i < |rows| ==> WithReviewer(rows, id, reviewer, now)[i].estado == rows[i].estado
  {
  }
}
