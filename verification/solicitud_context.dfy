/** The in-memory request store of the frontend: a list of requests, newest
    first, each carrying the form it was submitted with and its own history.
    `addSolicitud` puts a new request in front, `updateSolicitudStatus`
    changes one request's status and appends to its history, and
    `getMySolicitud` finds the current student's request. */
module SolicitudContext {
  import opened Common
  import Codes

  /** The student the frontend acts for. */
  const CurrentUser := "Justin Montoya"
  const ReviewerName := "Admin Revisor"
  const CreatedAction := "Solicitud Creada y Enviada"
  const StatusActionPrefix := "Estado cambiado a: "
  const SubjectPrefix := "Revisión: "
  const SubjectSuffix := "..."

  /** The wizard's form, member name to value. */
  type FormData = map<string, string>

  datatype HistoryEntry = HistoryEntry(date: string, action: string, user: string, message: Option<string>)

  datatype Solicitud = Solicitud(
    id: string,
    req: string,
    subj: string,
    prio: string,
    status: string,
    due: string,
    owner: string,
    formData: FormData,
    history: seq<HistoryEntry>)

  /** JavaScript truthiness of `formData[name]`. */
  predicate FormHas(form: FormData, name: string)
  {
    name in form && form[name] != ""
  }

  /** `Revisión: ` plus at most the first 20 characters of the objective, plus `...`. */
  function Subject(objetivoGeneral: string): (s: string)
    ensures SubjectPrefix <= s
    ensures |s| == |SubjectPrefix| + (if |objetivoGeneral| < 20 then |objetivoGeneral| else 20) + |SubjectSuffix|
    ensures s[|s| - |SubjectSuffix|..] == SubjectSuffix
    ensures s[|SubjectPrefix|..|s| - |SubjectSuffix|] <= objetivoGeneral
  {
    var taken := if |objetivoGeneral| < 20 then objetivoGeneral else objetivoGeneral[..20];
    var s := SubjectPrefix + taken + SubjectSuffix;
    assert s[|SubjectPrefix|..|s| - |SubjectSuffix|] == taken;
    s
  }

  /** The record `addSolicitud` builds. `draw` is the random draw of its
      `#NNNNN` id, `today` the local date and `now` the ISO timestamp. */
  function NewSolicitud(form: FormData, draw: nat, today: string, now: string): (s: Solicitud)
    requires "objetivoGeneral" in form
    requires draw < 90000
    ensures s.status == "Enviado" && s.prio == "Medium" && s.owner == CurrentUser
    ensures s.req == (if FormHas(form, "nombre") then form["nombre"] else CurrentUser)
    ensures s.subj == Subject(form["objetivoGeneral"])
    ensures s.id == Codes.GenerateCodigo(draw)
    ensures s.formData == form && s.due == today
    ensures s.history == [HistoryEntry(now, CreatedAction, CurrentUser, None)]
  {
    Solicitud(
      id := Codes.GenerateCodigo(draw),
      req := if FormHas(form, "nombre") then form["nombre"] else CurrentUser,
      subj := Subject(form["objetivoGeneral"]),
      prio := "Medium",
      status := "Enviado",
      due := today,
      owner := CurrentUser,
      formData := form,
      history := [HistoryEntry(now, CreatedAction, CurrentUser, None)])
  }

  /** The entry `updateSolicitudStatus` appends; an omitted observation is `""`. */
  function StatusEntry(newStatus: string, observation: Option<string>, now: string): (e: HistoryEntry)
    ensures e.action == StatusActionPrefix + newStatus && e.user == ReviewerName
    ensures e.message == Some(if observation.Some? then observation.value else "")
  {
    HistoryEntry(now, StatusActionPrefix + newStatus, ReviewerName,
                 Some(if observation.Some? then observation.value else ""))
  }

  /** The updater of `updateSolicitudStatus`. */
  function WithStatus(list: seq<Solicitud>, id: string, newStatus: string, observation: Option<string>, now: string)
    : (r: seq<Solicitud>)
    ensures |r| == |list|
    ensures forall i :: 0 <= i < |list| && list[i].id != id ==> r[i] == list[i]
    ensures forall i :: 0 <= i < |list| && list[i].id == id ==>
      && r[i].status == newStatus
      && |r[i].history| == |list[i].history| + 1
      && r[i].history[..|list[i].history|] == list[i].history
      && r[i].history[|list[i].history|] == StatusEntry(newStatus, observation, now)
      && r[i] == list[i].(status := r[i].status, history := r[i].history)
  {
    seq(|list|, i requires 0 <= i < |list| =>
      if list[i].id == id then
        list[i].(status := newStatus, history := list[i].history + [StatusEntry(newStatus, observation, now)])
      else list[i])
  }

  /** `find((s) => s.owner === owner) || null`. */
  function FirstOwnedBy(list: seq<Solicitud>, owner: string): (r: Option<Solicitud>)
    ensures r.None? <==> forall i :: 0 <= i < |list| ==> list[i].owner != owner
    ensures r.Some? ==> exists k :: 0 <= k < |list| && list[k] == r.value && r.value.owner == owner &&
                                    forall j :: 0 <= j < k ==> list[j].owner != owner
    decreases |list|
  {
    if list == [] then None
    else if list[0].owner == owner then Some(list[0])
    else
      var r := FirstOwnedBy(list[1..], owner);
      assert forall i :: 1 <= i < |list| ==> list[i] == list[1..][i - 1];
      if r.Some? then
        ghost var k :| 0 <= k < |list[1..]| && list[1..][k] == r.value && r.value.owner == owner &&
                       forall j :: 0 <= j < k ==> list[1..][j].owner != owner;
        assert list[k + 1] == r.value;
        r
      else r
  }

  /** The state held by the request provider. */
  class SolicitudStore {
    var solicitudes: seq<Solicitud>

    /** The provider starts from its seed list. */
    constructor (seed: seq<Solicitud>)
      ensures solicitudes == seed
    {
      solicitudes := seed;
    }

    /** `addSolicitud`: puts exactly one new record in front. */
    method AddSolicitud(form: FormData, draw: nat, today: string, now: string)
      requires "objetivoGeneral" in form
      requires draw < 90000
      modifies this
      ensures solicitudes == [NewSolicitud(form, draw, today, now)] + old(solicitudes)
    {
      solicitudes := [NewSolicitud(form, draw, today, now)] + solicitudes;
    }

    /** `updateSolicitudStatus`. */
    method UpdateSolicitudStatus(id: string, newStatus: string, observation: Option<string>, now: string)
      modifies this
      ensures solicitudes == WithStatus(old(solicitudes), id, newStatus, observation, now)
    {
      solicitudes := WithStatus(solicitudes, id, newStatus, observation, now);
    }

    /** `getMySolicitud`. */
    function GetMySolicitud(): (r: Option<Solicitud>)
      reads this
      ensures r == FirstOwnedBy(solicitudes, CurrentUser)
    {
      FirstOwnedBy(solicitudes, CurrentUser)
    }
  }

  /** Once the student has submitted, `getMySolicitud` finds that submission. */
  lemma AddedIsMine(list: seq<Solicitud>, form: FormData, draw: nat, today: string, now: string)
    requires "objetivoGeneral" in form && draw < 90000
    ensures FirstOwnedBy([NewSolicitud(form, draw, today, now)] + list, CurrentUser) == Some(NewSolicitud(form, draw, today, now))
  {
  }

  /** A status change keeps the student's own request the one found, now
      with the new status, when it is the one changed. */
  lemma UpdateKeepsMine(list: seq<Solicitud>, id: string, newStatus: string, observation: Option<string>, now: string)
    requires FirstOwnedBy(list, CurrentUser).Some?
    ensures var before := FirstOwnedBy(list, CurrentUser).value;
      var after := FirstOwnedBy(WithStatus(list, id, newStatus, observation, now), CurrentUser);
      && after.Some?
      && (before.id == id ==> after.value.status == newStatus)
      && (before.id != id ==> after.value == before)
  {
    var r := WithStatus(list, id, newStatus, observation, now);
    var before := FirstOwnedBy(list, CurrentUser).value;
    var k :| 0 <= k < |list| && list[k] == before && before.owner == CurrentUser &&
             forall j :: 0 <= j < k ==> list[j].owner != CurrentUser;
    FirstOwnedIsAt(r, CurrentUser, k);
  }

  lemma {:induction false} FirstOwnedIsAt(list: seq<Solicitud>, owner: string, k: nat)
    requires k < |list| && list[k].owner == owner
    requires forall j :: 0 <= j < k ==> list[j].owner != owner
    ensures FirstOwnedBy(list, owner) == Some(list[k])
    decreases k
  {
    if k > 0 {
      FirstOwnedIsAt(list[1..], owner, k - 1);
    }
  }
}
