/** The administrator's dashboard over requests in the shape of the
    `solicitudes` table: the filter bar, the summary cards, the status and
    priority badges, and the guarded decision handlers. */
module AdminDashboard {
  import opened Common
  import Codes

  const DefaultSubject := "Anteproyecto de Trabajo Comunal Universitario"
  const All := "all"

  /** A request as the dashboard reads it; `None` is a missing or null member. */
  datatype Ticket = Ticket(
    id: nat,
    codigoPublico: Option<string>,
    estudianteNombre: Option<string>,
    objetivoGeneral: Option<string>,
    subj: Option<string>,
    prioridad: Option<string>,
    estado: Option<string>,
    vencimiento: Option<string>,   // 'YYYY-MM-DD'
    assignedTo: Option<string>)

  /** The filter bar. */
  datatype Filters = Filters(search: string, priority: string, status: string, fromDate: string, toDate: string, assignment: string)

  const DefaultFilters := Filters("", All, All, "", "", All)

  /** JavaScript truthiness of an optional string. */
  predicate Present(o: Option<string>)
  {
    o.Some? && o.value != ""
  }

  function OrEmpty(o: Option<string>): string
  {
    if o.Some? then o.value else ""
  }

  /** `s.codigo_publico || String(s.id)`. */
  function CodeText(t: Ticket): string
  {
    if Present(t.codigoPublico) then t.codigoPublico.value else Codes.Decimal(t.id)
  }

  /** The subject shown and searched: objective, then subject, then the default. */
  function SubjectBase(t: Ticket): (s: string)
    ensures s != ""
  {
    if Present(t.objetivoGeneral) then t.objetivoGeneral.value
    else if Present(t.subj) then t.subj.value
    else DefaultSubject
  }

  predicate MatchesSearch(t: Ticket, search: string)
  {
    var text := Lower(search);
    || text == ""
    || Contains(Lower(CodeText(t)), text)
    || Contains(Lower(OrEmpty(t.estudianteNombre)), text)
    || Contains(Lower(SubjectBase(t)), text)
  }

  predicate MatchesAssigned(t: Ticket, assignment: string)
  {
    || assignment == All
    || (assignment == "unassigned" && !Present(t.assignedTo))
    || (assignment == "assigned" && Present(t.assignedTo))
  }

  /** The predicate of `filteredSolicitudes`. */
  predicate Matches(t: Ticket, f: Filters)
  {
    && MatchesSearch(t, f.search)
    && (f.priority == All || t.prioridad == Some(f.priority))
    && (f.status == All || t.estado == Some(f.status))
    && (f.fromDate == "" || (Present(t.vencimiento) && StrLe(f.fromDate, t.vencimiento.value)))
    && (f.toDate == "" || (Present(t.vencimiento) && StrLe(t.vencimiento.value, f.toDate)))
    && MatchesAssigned(t, f.assignment)
  }

  /** `a` is `b` with some elements left out, in the same order. */
  predicate IsSubsequence<T(==)>(a: seq<T>, b: seq<T>)
    decreases |b|
  {
    a == [] || (b != [] && ((a[0] == b[0] && IsSubsequence(a[1..], b[1..])) || IsSubsequence(a, b[1..])))
  }

  /** `filteredSolicitudes`. */
  function Filtered(list: seq<Ticket>, f: Filters): (r: seq<Ticket>)
    ensures IsSubsequence(r, list)
    ensures forall k :: 0 <= k < |r| ==> Matches(r[k], f)
    ensures forall t :: t in list && Matches(t, f) ==> t in r
    ensures forall t :: Matches(t, f) ==> multiset(r)[t] == multiset(list)[t]
    decreases |list|
  {
    if list == [] then []
    else
      var rest := Filtered(list[1..], f);
      assert forall t :: t in list ==> t == list[0] || t in list[1..];
      assert list == [list[0]] + list[1..];
      assert multiset(list) == multiset([list[0]]) + multiset(list[1..]);
      if Matches(list[0], f) then
        assert ([list[0]] + rest)[1..] == rest;
        assert multiset([list[0]] + rest) == multiset([list[0]]) + multiset(rest);
        [list[0]] + rest
      else rest
  }

  /** With the filter bar untouched every request is listed. */
  lemma {:induction false} DefaultFiltersKeepAll(list: seq<Ticket>)
    ensures Filtered(list, DefaultFilters) == list
    decreases |list|
  {
    if list != [] {
      DefaultFiltersKeepAll(list[1..]);
      assert Lower("") == "";
      assert Matches(list[0], DefaultFilters);
    }
  }

  /** "Asignados" and "Sin asignar" split the list: with every other filter
      fixed, each request passes exactly one of the two. */
  lemma AssignedPartition(t: Ticket, f: Filters)
    ensures Matches(t, f.(assignment := All)) <==>
      Matches(t, f.(assignment := "assigned")) || Matches(t, f.(assignment := "unassigned"))
    ensures !(Matches(t, f.(assignment := "assigned")) && Matches(t, f.(assignment := "unassigned")))
  {
  }

  lemma {:induction false} AssignedPartitionCount(list: seq<Ticket>, f: Filters)
    ensures |Filtered(list, f.(assignment := "assigned"))| + |Filtered(list, f.(assignment := "unassigned"))|
         == |Filtered(list, f.(assignment := All))|
    decreases |list|
  {
    if list != [] {
      AssignedPartitionCount(list[1..], f);
      AssignedPartition(list[0], f);
    }
  }

  /** With a date bound set, every listed request has a due date within it
      (a request without one, or outside the bounds, is not listed); and with
      both bounds set, a non-empty listing means the bounds are in order. */
  lemma DateBounds(list: seq<Ticket>, f: Filters)
    ensures forall t :: t in Filtered(list, f) && f.fromDate != "" ==>
      Present(t.vencimiento) && StrLe(f.fromDate, t.vencimiento.value)
    ensures forall t :: t in Filtered(list, f) && f.toDate != "" ==>
      Present(t.vencimiento) && StrLe(t.vencimiento.value, f.toDate)
    ensures Filtered(list, f) != [] && f.fromDate != "" && f.toDate != "" ==> StrLe(f.fromDate, f.toDate)
  {
    var r := Filtered(list, f);
    forall t | t in r ensures Matches(t, f) {
      var k :| 0 <= k < |r| && r[k] == t;
    }
    if r != [] && f.fromDate != "" && f.toDate != "" {
      assert Matches(r[0], f);
      StrLeTransitive(f.fromDate, r[0].vencimiento.value, f.toDate);
    }
  }

  /** Accented capitals fold too: a lower-case search with an accent finds a
      name written in capitals. */
  lemma AccentedSearchFindsCapitals(t: Ticket)
    requires t.estudianteNombre == Some("ÁNGEL MORA")
    ensures MatchesSearch(t, "ángel")
  {
    assert Lower("ángel") == "ángel";
    assert Lower(OrEmpty(t.estudianteNombre)) == "ángel mora";
    assert "ángel" <= "ángel mora";
  }

  /** Search ignores case: typing the search in lower case lists the same requests. */
  lemma SearchIgnoresCase(t: Ticket, f: Filters)
    ensures Matches(t, f) <==> Matches(t, f.(search := Lower(f.search)))
  {
    LowerIdempotent(f.search);
  }

  /** Number of requests whose `estado` is one of `states`. */
  function CountIn(list: seq<Ticket>, states: set<string>): (n: nat)
    ensures n <= |list|
    decreases |list|
  {
    if list == [] then 0
    else (if list[0].estado.Some? && list[0].estado.value in states then 1 else 0) + CountIn(list[1..], states)
  }

  /** The filter bar with only the status filter set. */
  function StatusOnly(status: string): Filters
  {
    DefaultFilters.(status := status)
  }

  /** Counting one status agrees with filtering the table by it. */
  lemma {:induction false} CountIsStatusListing(list: seq<Ticket>, status: string)
    requires status != All
    ensures CountIn(list, {status}) == |Filtered(list, StatusOnly(status))|
    decreases |list|
  {
    if list != [] {
      CountIsStatusListing(list[1..], status);
      assert Lower("") == "";
      assert Matches(list[0], StatusOnly(status)) <==> list[0].estado == Some(status);
    }
  }

  /** The "Pendientes" card: as many requests as the status filter lists for
      Enviado and for Open together. */
  function Pendientes(list: seq<Ticket>): (n: nat)
    ensures n == |Filtered(list, StatusOnly("Enviado"))| + |Filtered(list, StatusOnly("Open"))|
  {
    CountDisjoint(list, {"Enviado"}, {"Open"});
    CountIsStatusListing(list, "Enviado");
    CountIsStatusListing(list, "Open");
    assert {"Enviado"} + {"Open"} == {"Enviado", "Open"};
    CountIn(list, {"Enviado", "Open"})
  }

  /** The "Aprobadas" card: Aprobado and Closed together. */
  function Aprobadas(list: seq<Ticket>): (n: nat)
    ensures n == |Filtered(list, StatusOnly("Aprobado"))| + |Filtered(list, StatusOnly("Closed"))|
  {
    CountDisjoint(list, {"Aprobado"}, {"Closed"});
    CountIsStatusListing(list, "Aprobado");
    CountIsStatusListing(list, "Closed");
    assert {"Aprobado"} + {"Closed"} == {"Aprobado", "Closed"};
    CountIn(list, {"Aprobado", "Closed"})
  }

  /** The "Rechazadas" card. */
  function Rechazadas(list: seq<Ticket>): (n: nat)
    ensures n == |Filtered(list, StatusOnly("Rechazado"))|
  {
    CountIsStatusListing(list, "Rechazado");
    CountIn(list, {"Rechazado"})
  }

  lemma {:induction false} CountDisjoint(list: seq<Ticket>, a: set<string>, b: set<string>)
    requires a !! b
    ensures CountIn(list, a) + CountIn(list, b) == CountIn(list, a + b)
    decreases |list|
  {
    if list != [] {
      CountDisjoint(list[1..], a, b);
    }
  }

  /** The three summary cards count disjoint sets of requests. */
  lemma SummaryWithinTotal(list: seq<Ticket>)
    ensures Pendientes(list) + Aprobadas(list) + Rechazadas(list) <= |list|
  {
    CountDisjoint(list, {"Enviado", "Open"}, {"Aprobado", "Closed"});
    CountDisjoint(list, {"Enviado", "Open", "Aprobado", "Closed"}, {"Rechazado"});
    assert {"Enviado", "Open"} + {"Aprobado", "Closed"} == {"Enviado", "Open", "Aprobado", "Closed"};
  }

  const BlueBadge := "bg-blue-100 text-blue-700"
  const YellowBadge := "bg-yellow-100 text-yellow-700"
  const GreenBadge := "bg-green-100 text-green-700"
  const RedBadge := "bg-red-100 text-red-700"
  const GreyBadge := "bg-gray-100 text-gray-700"

  /** `getStatusClass`. */
  function StatusClass(estado: string): (c: string)
    ensures c == BlueBadge <==> estado in {"Enviado", "En Revisión", "Open"}
    ensures c == YellowBadge <==> estado == "Observado"
    ensures c == GreenBadge <==> estado in {"Aprobado", "Closed"}
    ensures c == RedBadge <==> estado == "Rechazado"
    ensures c == GreyBadge <==> estado !in {"Enviado", "En Revisión", "Open", "Observado", "Aprobado", "Closed", "Rechazado"}
  {
    match estado
    case "Enviado" => BlueBadge
    case "En Revisión" => BlueBadge
    case "Open" => BlueBadge
    case "Observado" => YellowBadge
    case "Aprobado" => GreenBadge
    case "Closed" => GreenBadge
    case "Rechazado" => RedBadge
    case _ => GreyBadge
  }

  /** `getPriorityClass`. */
  function PriorityClass(prio: string): (c: string)
    ensures c == RedBadge <==> prio == "High"
    ensures c == YellowBadge <==> prio == "Medium"
    ensures c == BlueBadge <==> prio == "Low"
    ensures c == GreyBadge <==> prio !in {"High", "Medium", "Low"}
  {
    match prio
    case "High" => RedBadge
    case "Medium" => YellowBadge
    case "Low" => BlueBadge
    case _ => GreyBadge
  }

  /** The store call a handler makes, if any. */
  datatype StoreCall = NoCall | UpdateStatus(id: nat, status: string, observation: string) | Assign(id: nat, reviewer: string)

  /** The review modal of the dashboard. */
  datatype ModalState = ModalState(isOpen: bool, selected: Option<Ticket>)

  /** `handleApprove`, `handleReject` and `handleReturn`: nothing without a
      selected request; otherwise the status change, then the modal closes. */
  function HandleDecision(modal: ModalState, status: string, observation: string): (r: (StoreCall, ModalState))
    ensures modal.selected.None? ==> r == (NoCall, modal)
    ensures modal.selected.Some? ==>
      r.0 == UpdateStatus(modal.selected.value.id, status, observation) && r.1 == ModalState(false, None)
  {
    if modal.selected.None? then (NoCall, modal)
    else (UpdateStatus(modal.selected.value.id, status, observation), ModalState(false, None))
  }

  function HandleApprove(modal: ModalState, observation: string): (r: (StoreCall, ModalState))
    ensures modal.selected.None? ==> r == (NoCall, modal)
    ensures modal.selected.Some? ==>
      r == (UpdateStatus(modal.selected.value.id, "Aprobado", observation), ModalState(false, None))
  {
    HandleDecision(modal, "Aprobado", observation)
  }

  function HandleReject(modal: ModalState, observation: string): (r: (StoreCall, ModalState))
    ensures modal.selected.None? ==> r == (NoCall, modal)
    ensures modal.selected.Some? ==>
      r == (UpdateStatus(modal.selected.value.id, "Rechazado", observation), ModalState(false, None))
  {
    HandleDecision(modal, "Rechazado", observation)
  }

  function HandleReturn(modal: ModalState, observation: string): (r: (StoreCall, ModalState))
    ensures modal.selected.None? ==> r == (NoCall, modal)
    ensures modal.selected.Some? ==>
      r == (UpdateStatus(modal.selected.value.id, "Observado", observation), ModalState(false, None))
  {
    HandleDecision(modal, "Observado", observation)
  }

  /** `handleAssign`: nothing for the empty choice. */
  function HandleAssign(id: nat, reviewer: string): (c: StoreCall)
    ensures c == NoCall <==> reviewer == ""
    ensures c != NoCall ==> c == Assign(id, reviewer)
  {
    if reviewer == "" then NoCall else Assign(id, reviewer)
  }
}
