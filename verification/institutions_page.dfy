/** The administrator's institutions page: an in-memory list seeded with
    five institutions, approve and reject buttons on pending rows, and the
    modal's save, which either edits a row in place or prepends a new,
    approved one under a fresh id. */
module InstitutionsPage {
  import opened Common
  import opened InstitutionTypes
  import InstitutionModal

  const Approved := "Aprobada"
  const Pending := "Pendiente"
  const Rejected := "Rechazada"

  /** The list the page starts from. */
  const InitialInstitutions: seq<Institution> := [
    Institution(1, "Hogar de Ancianos Luz y Vida", "ana@luzvida.org", "Cuidado de adulto mayor", Pending),
    Institution(2, "Escuela El Porvenir", "director@porvenir.me.cr", "Educación", Approved),
    Institution(3, "Refugio Animal de Cartago", "info@refugiocartago.org", "Bienestar animal", Approved),
    Institution(4, "Municipalidad de Curridabat", "proveeduria@curridabat.go.cr", "Gubernamental", Rejected),
    Institution(5, "Comedor Semillitas", "info@semillitas.org", "Ayuda social", Pending)]

  const GreenBadge := "bg-green-100 text-green-700"
  const YellowBadge := "bg-yellow-100 text-yellow-700"
  const RedBadge := "bg-red-100 text-red-700"
  const GreyBadge := "bg-gray-100 text-gray-700"

  /** `getStatusClass` of the page: one badge per known status, grey otherwise. */
  function StatusClass(status: string): (c: string)
    ensures c == GreenBadge <==> status == Approved
    ensures c == YellowBadge <==> status == Pending
    ensures c == RedBadge <==> status == Rejected
    ensures c == GreyBadge <==> status !in {Approved, Pending, Rejected}
  {
    match status
    case "Aprobada" => GreenBadge
    case "Pendiente" => YellowBadge
    case "Rechazada" => RedBadge
    case _ => GreyBadge
  }

  /** The buttons of a row's "Acciones" cell. */
  datatype Actions = ApproveOrReject | ViewOnly

  function ActionsFor(status: string): (a: Actions)
    ensures a == ApproveOrReject <==> status == Pending
  {
    if status == Pending then ApproveOrReject else ViewOnly
  }

  /** The ids of a list, position by position. */
  function Ids(list: seq<Institution>): (ids: seq<int>)
    ensures |ids| == |list|
  {
    seq(|list|, k requires 0 <= k < |list| => list[k].id)
  }

  predicate DistinctIds(list: seq<Institution>)
  {
    forall i, j :: 0 <= i < j < |list| ==> list[i].id != list[j].id
  }

  /** `Math.max(...list.map(i => i.id))` on a non-empty list. */
  function MaxId(list: seq<Institution>): (m: int)
    requires list != []
    ensures m in Ids(list)
    ensures forall k :: 0 <= k < |list| ==> list[k].id <= m
  {
    assert Ids(list)[0] == list[0].id;
    if |list| == 1 then list[0].id
    else
      var rest := MaxId(list[1..]);
      assert forall k :: 1 <= k < |list| ==> list[k] == list[1..][k - 1];
      assert Ids(list[1..]) == Ids(list)[1..];
      if list[0].id >= rest then list[0].id else rest
  }

  /** The row with `id` takes `status`; every other row is kept. */
  function WithStatus(list: seq<Institution>, id: int, status: string): (r: seq<Institution>)
    ensures |r| == |list| && Ids(r) == Ids(list)
    ensures forall k :: 0 <= k < |list| ==>
      r[k] == if list[k].id == id then list[k].(status := status) else list[k]
  {
    seq(|list|, k requires 0 <= k < |list| => if list[k].id == id then list[k].(status := status) else list[k])
  }

  /** `{ ...inst, ...formData }` for the row with `id`: the form's three
      members replace the row's, the id and status stay. */
  function Merged(list: seq<Institution>, id: int, form: InstitutionForm): (r: seq<Institution>)
    ensures |r| == |list| && Ids(r) == Ids(list)
    ensures forall k :: 0 <= k < |list| && list[k].id != id ==> r[k] == list[k]
    ensures forall k :: 0 <= k < |list| && list[k].id == id ==>
      r[k] == Institution(id, form.name, form.contact, form.serviceType, list[k].status)
  {
    seq(|list|, k requires 0 <= k < |list| =>
      if list[k].id == id then list[k].(name := form.name, contact := form.contact, serviceType := form.serviceType)
      else list[k])
  }

  /** The institution `handleSave` creates from a form. */
  function Created(list: seq<Institution>, form: InstitutionForm): (inst: Institution)
    requires list != []
    ensures inst.id !in Ids(list)
    ensures inst.status == Approved
    ensures inst.name == form.name && inst.contact == form.contact && inst.serviceType == form.serviceType
  {
    Institution(MaxId(list) + 1, form.name, form.contact, form.serviceType, Approved)
  }

  /** The page component's state. */
  class Page {
    var institutions: seq<Institution>
    var isModalOpen: bool
    var selected: Option<Institution>

    /** The list is never empty (so `Math.max` always has an argument) and
        its ids are positive and pairwise distinct. */
    ghost predicate Valid()
      reads this
    {
      ValidList(institutions)
    }

    constructor ()
      ensures Valid()
      ensures institutions == InitialInstitutions && !isModalOpen && selected == None
    {
      institutions, isModalOpen, selected := InitialInstitutions, false, None;
    }

    /** `openModal`: `None` opens it for a new institution. */
    method OpenModal(institution: Option<Institution>)
      modifies this
      ensures institutions == old(institutions)
      ensures isModalOpen && selected == institution
    {
      selected, isModalOpen := institution, true;
    }

    /** `closeModal`. */
    method CloseModal()
      modifies this
      ensures institutions == old(institutions)
      ensures !isModalOpen && selected == None
    {
      selected, isModalOpen := None, false;
    }

    /** `handleApprove`. */
    method HandleApprove(id: int)
      requires Valid()
      modifies this
      ensures Valid()
      ensures institutions == WithStatus(old(institutions), id, Approved)
      ensures isModalOpen == old(isModalOpen) && selected == old(selected)
    {
      institutions := WithStatus(institutions, id, Approved);
      IdsKeepValid(old(institutions), institutions);
    }

    /** `handleReject`. */
    method HandleReject(id: int)
      requires Valid()
      modifies this
      ensures Valid()
      ensures institutions == WithStatus(old(institutions), id, Rejected)
      ensures isModalOpen == old(isModalOpen) && selected == old(selected)
    {
      institutions := WithStatus(institutions, id, Rejected);
      IdsKeepValid(old(institutions), institutions);
    }

    /** `handleSave`: an id (JavaScript-truthy, so not 0) edits that row;
        otherwise a new approved institution is put first. The modal closes. */
    method HandleSave(form: InstitutionForm, id: Option<int>)
      requires Valid()
      modifies this
      ensures Valid()
      ensures id.Some? && id.value != 0 ==> institutions == Merged(old(institutions), id.value, form)
      ensures !(id.Some? && id.value != 0) ==> institutions == [Created(old(institutions), form)] + old(institutions)
      ensures !isModalOpen && selected == None
    {
      if id.Some? && id.value != 0 {
        institutions := Merged(institutions, id.value, form);
        IdsKeepValid(old(institutions), institutions);
      } else {
        var inst := Created(institutions, form);
        CreatedIdIsFresh(institutions, form);
        institutions := [inst] + institutions;
        PrependKeepsValid(inst, old(institutions));
      }
      CloseModal();
    }
  }

  /** The page's list invariant, on a list value. */
  ghost predicate ValidList(list: seq<Institution>)
  {
    && list != []
    && DistinctIds(list)
    && (forall k :: 0 <= k < |list| ==> list[k].id >= 1)
  }

  /** A list with the same ids position by position stays valid. */
  lemma IdsKeepValid(before: seq<Institution>, after: seq<Institution>)
    requires ValidList(before)
    requires Ids(after) == Ids(before)
    ensures ValidList(after)
  {
    assert |after| == |before|;
    forall k | 0 <= k < |after|
      ensures after[k].id == before[k].id
    {
      assert Ids(after)[k] == Ids(before)[k];
    }
  }

  /** Putting a row whose id is larger than every other in front keeps the
      list valid. */
  lemma PrependKeepsValid(inst: Institution, list: seq<Institution>)
    requires ValidList(list)
    requires forall k :: 0 <= k < |list| ==> list[k].id < inst.id
    ensures ValidList([inst] + list)
  {
    var r := [inst] + list;
    forall i, j | 0 <= i < j < |r|
      ensures r[i].id != r[j].id
    {
      assert r[j] == list[j - 1];
      if i > 0 {
        assert r[i] == list[i - 1];
      }
    }
    forall k | 0 <= k < |r|
      ensures r[k].id >= 1
    {
      if k > 0 {
        assert r[k] == list[k - 1];
      } else {
        assert list[0].id < inst.id;
      }
    }
  }

  /** A new institution's id is one past the largest and so unlike every
      existing one. */
  lemma CreatedIdIsFresh(list: seq<Institution>, form: InstitutionForm)
    requires list != []
    ensures forall k :: 0 <= k < |list| ==> list[k].id < Created(list, form).id
  {
  }

  /** Approving or rejecting decides a row: once decided it offers only
      "Ver", and deciding it again to the same status changes nothing. */
  lemma DecisionIsFinal(list: seq<Institution>, id: int, status: string)
    requires status == Approved || status == Rejected
    ensures forall k :: 0 <= k < |list| && list[k].id == id ==>
      ActionsFor(WithStatus(list, id, status)[k].status) == ViewOnly
    ensures WithStatus(WithStatus(list, id, status), id, status) == WithStatus(list, id, status)
  {
  }

  /** Opening the modal on a row and saving without changes leaves the list
      as it was. */
  lemma {:induction false} UnchangedEditIsNoOp(list: seq<Institution>, k: nat)
    requires ValidList(list) && k < |list|
    ensures var inst := list[k];
      var e := InstitutionModal.HandleSubmit(inst.name, inst.contact, inst.serviceType, Some(inst));
      inst.name != "" && inst.contact != "" ==>
        && e == InstitutionModal.Save(InstitutionForm(inst.name, inst.contact, inst.serviceType), Some(inst.id))
        && inst.id != 0
        && Merged(list, inst.id, e.form) == list
  {
    var inst := list[k];
    var form := InstitutionForm(inst.name, inst.contact, inst.serviceType);
    var r := Merged(list, inst.id, form);
    forall j | 0 <= j < |list|
      ensures r[j] == list[j]
    {
      if list[j].id == inst.id {
        assert !(j < k) && !(k < j);
      }
    }
  }
}
