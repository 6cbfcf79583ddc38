/** The institution endpoints of the backend: a public listing, a public
    registration that always waits for vetting (`Pendiente`), an
    administrator's registration (approved unless told otherwise), an edit of
    the descriptive fields and a status change. The `instituciones` table is
    held by `InstitucionesDb`. */
module InstitucionesController {
  import opened Common
  import Sorting

  const MissingFieldsMessage := "nombre, cedula_juridica, supervisor_nombre y supervisor_email son requeridos"
  const MissingEstadoMessage := "estado es requerido"

  /** The body of the three write endpoints (each reads the members it needs). */
  datatype InstitucionBody = InstitucionBody(
    nombre: Field,
    cedulaJuridica: Field,
    supervisorNombre: Field,
    supervisorCargo: Field,
    supervisorEmail: Field,
    tipoServicio: Field,
    estado: Field,
    createdByUserId: Option<int>)   // a JSON number; 0 is falsy

  /** A row of `instituciones`; `None` is SQL NULL. */
  datatype InstitucionRow = InstitucionRow(
    id: nat,
    nombre: Option<string>,
    cedulaJuridica: Option<string>,
    supervisorNombre: Option<string>,
    supervisorCargo: Option<string>,
    supervisorEmail: Option<string>,
    tipoServicio: Option<string>,
    estado: Option<string>,
    createdByUserId: Option<int>)

  /** The guard of `createInstitucionPublic`. */
  predicate MissingRequired(b: InstitucionBody)
  {
    !Truthy(b.nombre) || !Truthy(b.cedulaJuridica) || !Truthy(b.supervisorNombre) || !Truthy(b.supervisorEmail)
  }

  /** The row `createInstitucionPublic` inserts: always `Pendiente`, whatever
      the body says, optional members defaulting to NULL. */
  function PublicRow(b: InstitucionBody, id: nat): (r: InstitucionRow)
    requires !MissingRequired(b)
    ensures r.id == id
    ensures r.estado == Some("Pendiente")
    ensures r.nombre == Some(b.nombre.s) && r.cedulaJuridica == Some(b.cedulaJuridica.s)
    ensures r.supervisorNombre == Some(b.supervisorNombre.s) && r.supervisorEmail == Some(b.supervisorEmail.s)
    ensures r.supervisorCargo == OrNull(b.supervisorCargo) && r.tipoServicio == OrNull(b.tipoServicio)
    ensures r.createdByUserId.Some? <==> b.createdByUserId.Some? && b.createdByUserId.value != 0
    ensures r.createdByUserId.Some? ==> r.createdByUserId == b.createdByUserId
  {
    InstitucionRow(
      id := id,
      nombre := Some(b.nombre.s),
      cedulaJuridica := Some(b.cedulaJuridica.s),
      supervisorNombre := Some(b.supervisorNombre.s),
      supervisorCargo := OrNull(b.supervisorCargo),
      supervisorEmail := Some(b.supervisorEmail.s),
      tipoServicio := OrNull(b.tipoServicio),
      estado := Some("Pendiente"),
      createdByUserId := if b.createdByUserId.Some? && b.createdByUserId.value != 0 then b.createdByUserId else None)
  }

  /** The row the administrator's `createInstitucion` inserts: members stored
      as given (no validation), `estado` defaulting to `Aprobada`. */
  function AdminRow(b: InstitucionBody, id: nat): (r: InstitucionRow)
    ensures r.id == id
    ensures r.estado.Some? && r.estado.value != ""
    ensures Truthy(b.estado) ==> r.estado == Some(b.estado.s)
    ensures !Truthy(b.estado) ==> r.estado == Some("Aprobada")
    ensures r.nombre == AsColumn(b.nombre) && r.createdByUserId == None
    ensures r.cedulaJuridica == AsColumn(b.cedulaJuridica) && r.supervisorNombre == AsColumn(b.supervisorNombre)
    ensures r.supervisorCargo == AsColumn(b.supervisorCargo) && r.supervisorEmail == AsColumn(b.supervisorEmail)
    ensures r.tipoServicio == AsColumn(b.tipoServicio)
  {
    InstitucionRow(
      id := id,
      nombre := AsColumn(b.nombre),
      cedulaJuridica := AsColumn(b.cedulaJuridica),
      supervisorNombre := AsColumn(b.supervisorNombre),
      supervisorCargo := AsColumn(b.supervisorCargo),
      supervisorEmail := AsColumn(b.supervisorEmail),
      tipoServicio := AsColumn(b.tipoServicio),
      estado := Some(OrElse(b.estado, "Aprobada")),
      createdByUserId := None)
  }

  /** `updateInstitucion`: the six descriptive columns of row `id` are
      overwritten; `estado` and the creator are kept. */
  function WithDetails(rows: seq<InstitucionRow>, id: int, b: InstitucionBody): (r: seq<InstitucionRow>)
    ensures |r| == |rows|
    ensures forall i :: 0 <= i < |rows| && rows[i].id != id ==> r[i] == rows[i]
    ensures forall i :: 0 <= i < |rows| && rows[i].id == id ==>
      && r[i].id == rows[i].id && r[i].estado == rows[i].estado && r[i].createdByUserId == rows[i].createdByUserId
      && r[i].nombre == AsColumn(b.nombre) && r[i].cedulaJuridica == AsColumn(b.cedulaJuridica)
      && r[i].supervisorNombre == AsColumn(b.supervisorNombre) && r[i].supervisorCargo == AsColumn(b.supervisorCargo)
      && r[i].supervisorEmail == AsColumn(b.supervisorEmail) && r[i].tipoServicio == AsColumn(b.tipoServicio)
  {
    seq(|rows|, i requires 0 <= i < |rows| =>
      if rows[i].id == id then
        rows[i].(nombre := AsColumn(b.nombre), cedulaJuridica := AsColumn(b.cedulaJuridica),
                 supervisorNombre := AsColumn(b.supervisorNombre), supervisorCargo := AsColumn(b.supervisorCargo),
                 supervisorEmail := AsColumn(b.supervisorEmail), tipoServicio := AsColumn(b.tipoServicio))
      else rows[i])
  }

  /** `UPDATE instituciones SET estado = ? WHERE id = ?`: no check of the
      current status. */
  function WithEstado(rows: seq<InstitucionRow>, id: int, estado: string): (r: seq<InstitucionRow>)
    ensures |r| == |rows|
    ensures forall i :: 0 <= i < |rows| && rows[i].id != id ==> r[i] == rows[i]
    ensures forall i :: 0 <= i < |rows| && rows[i].id == id ==> r[i] == rows[i].(estado := Some(estado))
  {
    seq(|rows|, i requires 0 <= i < |rows| =>
      if rows[i].id == id then rows[i].(estado := Some(estado)) else rows[i])
  }

  /** Setting the same status twice gives the state of setting it once. */
  lemma WithEstadoIdempotent(rows: seq<InstitucionRow>, id: int, estado: string)
    ensures WithEstado(WithEstado(rows, id, estado), id, estado) == WithEstado(rows, id, estado)
  {
    var once := WithEstado(rows, id, estado);
    var twice := WithEstado(once, id, estado);
    assert forall i :: 0 <= i < |rows| ==> twice[i] == once[i];
  }

  /** `SELECT * FROM instituciones WHERE id = ?` followed by `rows[0]`. */
  function FindById(rows: seq<InstitucionRow>, id: int): (r: Option<InstitucionRow>)
    ensures r.Some? ==> r.value in rows && r.value.id == id
    ensures r.None? ==> forall i :: 0 <= i < |rows| ==> rows[i].id != id
    decreases |rows|
  {
    if rows == [] then None
    else if rows[0].id == id then Some(rows[0])
    else FindById(rows[1..], id)
  }

  /** `WHERE estado = ?`, in table order. */
  function WithStatus(rows: seq<InstitucionRow>, estado: string): (r: seq<InstitucionRow>)
    ensures forall x :: x in r <==> x in rows && x.estado == Some(estado)
    ensures multiset(r) <= multiset(rows)
    ensures forall x: InstitucionRow :: x.estado == Some(estado) ==> multiset(r)[x] == multiset(rows)[x]
    decreases |rows|
  {
    if rows == [] then []
    else
      assert rows == [rows[0]] + rows[1..];
      (if rows[0].estado == Some(estado) then [rows[0]] else []) + WithStatus(rows[1..], estado)
  }

  /** `ORDER BY nombre ASC`: NULL first, then the names in string order. */
  predicate NombreLe(a: Option<string>, b: Option<string>)
  {
    a.None? || (b.Some? && StrLe(a.value, b.value))
  }

  const ByNombre := (a: InstitucionRow, b: InstitucionRow) => NombreLe(a.nombre, b.nombre)

  lemma ByNombreIsTotalPreorder()
    ensures Sorting.TotalPreorder(ByNombre)
  {
    forall a: InstitucionRow, b: InstitucionRow ensures ByNombre(a, b) || ByNombre(b, a) {
      if a.nombre.Some? && b.nombre.Some? { StrLeTotal(a.nombre.value, b.nombre.value); }
    }
    forall a: InstitucionRow, b: InstitucionRow, c: InstitucionRow | ByNombre(a, b) && ByNombre(b, c)
      ensures ByNombre(a, c)
    {
      if a.nombre.Some? { StrLeTransitive(a.nombre.value, b.nombre.value, c.nombre.value); }
    }
  }

  /** `getAllInstituciones`: the rows with the requested `estado` when one is
      given, every row otherwise, sorted by name. */
  function GetAllInstituciones(rows: seq<InstitucionRow>, estado: Field): (r: seq<InstitucionRow>)
    ensures Truthy(estado) ==> multiset(r) == multiset(WithStatus(rows, estado.s))
    ensures Truthy(estado) ==> forall x :: x in r <==> x in rows && x.estado == Some(estado.s)
    ensures !Truthy(estado) ==> multiset(r) == multiset(rows)
    ensures Sorting.SortedBy(r, ByNombre)
  {
    ByNombreIsTotalPreorder();
    var selected := if Truthy(estado) then WithStatus(rows, estado.s) else rows;
    var r := Sorting.SortBy(selected, ByNombre);
    assert forall x :: x in r <==> x in selected by {
      forall x ensures x in r <==> x in selected {
        assert x in r <==> x in multiset(r);
        assert x in selected <==> x in multiset(selected);
      }
    }
    r
  }

  /** The `instituciones` table. `nextId` is its AUTO_INCREMENT counter. */
  class InstitucionesDb {
    var rows: seq<InstitucionRow>
    var nextId: nat

    ghost predicate Valid()
      reads this
    {
      && nextId >= 1
      && (forall i :: 0 <= i < |rows| ==> 1 <= rows[i].id < nextId)
      && (forall i, j :: 0 <= i < j < |rows| ==> rows[i].id != rows[j].id)
    }

    constructor ()
      ensures Valid() && rows == [] && nextId == 1
    {
      rows, nextId := [], 1;
    }

    /** `createInstitucionPublic`. */
    method CreatePublic(body: InstitucionBody) returns (resp: Response<InstitucionRow>)
      requires Valid()
      modifies this
      ensures Valid()
      ensures MissingRequired(body) ==>
        resp == Err(400, MissingFieldsMessage) && rows == old(rows) && nextId == old(nextId)
      ensures !MissingRequired(body) ==>
        && rows == old(rows) + [PublicRow(body, old(nextId))]
        && nextId == old(nextId) + 1
        && resp == Ok(201, PublicRow(body, old(nextId)))
    {
      if MissingRequired(body) {
        return Err(400, MissingFieldsMessage);
      }
      var row := PublicRow(body, nextId);
      rows, nextId := rows + [row], nextId + 1;
      resp := Ok(201, row);
    }

    /** `createInstitucion` (administrator). */
    method Create(body: InstitucionBody) returns (resp: Response<InstitucionRow>)
      requires Valid()
      modifies this
      ensures Valid()
      ensures rows == old(rows) + [AdminRow(body, old(nextId))]
      ensures nextId == old(nextId) + 1
      ensures resp == Ok(201, AdminRow(body, old(nextId)))
    {
      var row := AdminRow(body, nextId);
      rows, nextId := rows + [row], nextId + 1;
      resp := Ok(201, row);
    }

    /** `updateInstitucion`. */
    method Update(id: int, body: InstitucionBody) returns (resp: Response<Option<InstitucionRow>>)
      requires Valid()
      modifies this
      ensures Valid()
      ensures rows == WithDetails(old(rows), id, body) && nextId == old(nextId)
      ensures resp == Ok(200, FindById(rows, id))
    {
      rows := WithDetails(rows, id, body);
      resp := Ok(200, FindById(rows, id));
    }

    /** `updateInstitucionStatus`. */
    method UpdateStatus(id: int, estado: Field) returns (resp: Response<Option<InstitucionRow>>)
      requires Valid()
      modifies this
      ensures Valid()
      ensures nextId == old(nextId)
      ensures !Truthy(estado) ==> resp == Err(400, MissingEstadoMessage) && rows == old(rows)
      ensures Truthy(estado) ==>
        rows == WithEstado(old(rows), id, estado.s) && resp == Ok(200, FindById(rows, id))
    {
      if !Truthy(estado) {
        return Err(400, MissingEstadoMessage);
      }
      rows := WithEstado(rows, id, estado.s);
      resp := Ok(200, FindById(rows, id));
    }
  }

  /** An institution registered through the public route and then approved
      is listed by `GET /instituciones?estado=Aprobada`. */
  lemma ApprovedRequestIsListed(rows: seq<InstitucionRow>, body: InstitucionBody, id: nat)
    requires !MissingRequired(body)
    requires forall i :: 0 <= i < |rows| ==> rows[i].id != id
    ensures PublicRow(body, id).(estado := Some("Aprobada")) in
      GetAllInstituciones(WithEstado(rows + [PublicRow(body, id)], id, "Aprobada"), Str("Aprobada"))
  {
    var after := WithEstado(rows + [PublicRow(body, id)], id, "Aprobada");
    assert after[|rows|] == PublicRow(body, id).(estado := Some("Aprobada"));
  }
}
