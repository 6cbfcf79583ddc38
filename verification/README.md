# TCU request management — a Dafny model

This project models the core of a small web application for university
community-service projects (TCU, Trabajo Comunal Universitario). Students
submit a project request (a *solicitud*); administrators review, assign and
decide it; host institutions are registered and vetted.

The model covers both halves of the application:

- **Backend controllers** (Express over MySQL):
  - requests: create, change status, assign a reviewer, list;
  - institutions: public and administrator registration, update, status change, list;
  - authentication: register, login, profile;
  - the two request guards (`authRequired` with a Bearer header, `adminOnly`).

  Each MySQL table is a field of a class: a sequence of rows plus the
  AUTO_INCREMENT counter. Each endpoint is a method that validates its body,
  applies the defaults, writes the rows and returns the HTTP reply as a
  `Response` (`Ok(status, value)` or `Err(status, message)`).
- **Frontend logic** (React):
  - the in-memory request store (`addSolicitud`, `updateSolicitudStatus`, `getMySolicitud`);
  - the administrator dashboard's filter bar, summary cards, badges and decision handlers;
  - the review modal's decision rules;
  - the student's status timeline;
  - the four-step submission wizard;
  - the institutions page and its modal.

  Component state is a class whose methods are the event handlers.
  Pure rendering decisions are functions.

Shared modules:

- `Common`: JSON body members as `Field = Absent | Null | Str(s)` with
  JavaScript truthiness and `||` defaults, SQL NULL as `Option`, the
  `Response` type, code-point string order, lower case of ASCII and Latin-1 letters, substring.
- `Codes`: decimal rendering and the `#NNNNN` public code.
- `Sorting`: `ORDER BY` as an insertion sort over a total preorder.
- `InstitutionTypes`: the records shared by the institutions page and its modal.

Library calls that the model does not contain are passed in as parameters:

- password hashing and comparison (bcrypt);
- token signing and verification (JSON Web Tokens);
- random draws (`Math.random`);
- clocks (`NOW()`, `new Date()`).

## Model

| member | source | states |
|---|---|---|
| Codes.GenerateCodigo | backend/src/controllers/solicitud.controller.js:5-8 | the code is 6 characters, `#` then decimal digits, and reads back as `draw + 10000`, a number in [10000, 99999] |
| Codes.GenerateCodigoInjective | backend/src/controllers/solicitud.controller.js:5-8 | different draws give different codes |
| Codes.ParseDecimalOfDecimal | backend/src/controllers/solicitud.controller.js:7 | the decimal rendering of a number reads back as that number |
| SolicitudController.OwnerEmailOf | backend/src/controllers/solicitud.controller.js:110 | the owner e-mail is the body's when present and non-empty, the demo owner's otherwise; never empty |
| SolicitudController.NewRow | backend/src/controllers/solicitud.controller.js:137-156 | the inserted row has estado `Enviado`, no reviewer or assignment date, owner user 1, prioridad defaulting to `Medium`, the four optional texts defaulting to `""`, the student's name, cédula and project title as given (absent as NULL), institucion_id as given or NULL when absent or 0, both timestamps `now`, and the four required members as given |
| SolicitudController.WithEstado | backend/src/controllers/solicitud.controller.js:196-199 | the UPDATE keeps the length and every other row, and sets estado and updated_at only on rows with that id |
| SolicitudController.WithReviewer | backend/src/controllers/solicitud.controller.js:238-243 | the UPDATE sets assigned_to, assign_date and updated_at only on rows with that id, and keeps every other row |
| SolicitudController.FindById | backend/src/controllers/solicitud.controller.js:213-217 | the re-read row is a row of the table with that id; none is found only when no row has it |
| SolicitudController.HistoryOf | backend/src/controllers/solicitud.controller.js:161-170 | a request's history holds only rows of the history table that belong to it, and every such row |
| SolicitudController.HistoryOfAppend | backend/src/controllers/solicitud.controller.js:201-210 | appending one history row grows that request's history by exactly that row, at the end, and leaves every other request's history as it was |
| SolicitudController.OwnedBy | backend/src/controllers/solicitud.controller.js:26-28 | `WHERE owner_email = ?` keeps exactly the rows whose owner equals the e-mail, each as often as in the table |
| SolicitudController.NewerFirstIsTotalPreorder | backend/src/controllers/solicitud.controller.js:29 | `created_at DESC` is a total preorder |
| SolicitudController.MySolicitudes | backend/src/controllers/solicitud.controller.js:20-38 | the listing is a permutation of the rows whose owner equals the query's e-mail (or the demo owner), newest first |
| SolicitudController.AllSolicitudes | backend/src/controllers/solicitud.controller.js:43-55 | the listing is a permutation of the table, newest first |
| SolicitudController.SolicitudesDb.CreateSolicitud | backend/src/controllers/solicitud.controller.js:79-184 | a missing required member gives 400 and writes nothing; otherwise exactly one row under the next id and exactly one history row `Solicitud creada y enviada` by the owner, then 201 with the row; ids stay distinct |
| SolicitudController.SolicitudesDb.UpdateStatus | backend/src/controllers/solicitud.controller.js:191-222 | estado is set whatever it was before, exactly one history row `Estado cambiado a: <status>` with the observation or `""` is appended, and the reply is the re-read row |
| SolicitudController.SolicitudesDb.AssignReviewer | backend/src/controllers/solicitud.controller.js:229-266 | an empty reviewer gives 400 and writes nothing; otherwise the reviewer and time are recorded and exactly one history row `Asignada a: <reviewer>` is appended |
| SolicitudController.StatusChangeRecorded | backend/src/controllers/solicitud.controller.js:196-210 | after a status change the re-read row has the new estado and the request's history ends with the matching entry, one longer than before |
| SolicitudController.AssignKeepsEstado | backend/src/controllers/solicitud.controller.js:238-243 | assigning a reviewer changes no request's estado |
| InstitucionesController.PublicRow | backend/src/controllers/instituciones.controller.js:65-74 | a public registration is stored `Pendiente` whatever the body says; cargo, service type and creator default to NULL, and a stored creator is the body's |
| InstitucionesController.AdminRow | backend/src/controllers/instituciones.controller.js:115-123 | an administrator's registration stores the six descriptive members as given (absent as NULL), no creator, and the body's estado or `Aprobada` when none is given |
| InstitucionesController.WithDetails | backend/src/controllers/instituciones.controller.js:153-171 | the six descriptive columns of row id are overwritten; its estado, id and creator and every other row are kept |
| InstitucionesController.WithEstado | backend/src/controllers/instituciones.controller.js:197-202 | only estado changes, only on row id, to any value whatever the current one |
| InstitucionesController.WithEstadoIdempotent | backend/src/controllers/instituciones.controller.js:197-202 | setting the same estado twice gives the state of setting it once |
| InstitucionesController.FindById | backend/src/controllers/instituciones.controller.js:204-209 | the re-read row is a row with that id; none only when no row has it |
| InstitucionesController.WithStatus | backend/src/controllers/instituciones.controller.js:15-18 | `WHERE estado = ?` keeps exactly the rows whose estado equals the query's, each as often as in the table |
| InstitucionesController.ByNombreIsTotalPreorder | backend/src/controllers/instituciones.controller.js:20 | `nombre ASC` (NULL first) is a total preorder |
| InstitucionesController.GetAllInstituciones | backend/src/controllers/instituciones.controller.js:8-28 | with an estado the listing is a permutation of the rows with it (each exactly as often as in the table), otherwise a permutation of the table; always sorted by name |
| InstitucionesController.InstitucionesDb.CreatePublic | backend/src/controllers/instituciones.controller.js:34-87 | a missing nombre, cedula_juridica, supervisor_nombre or supervisor_email gives 400 and inserts nothing; otherwise one `Pendiente` row under the next id and 201 |
| InstitucionesController.InstitucionesDb.Create | backend/src/controllers/instituciones.controller.js:92-136 | one row under the next id, no validation, and 201 with it |
| InstitucionesController.InstitucionesDb.Update | backend/src/controllers/instituciones.controller.js:141-183 | the table becomes the descriptive-column update and the reply is the re-read row |
| InstitucionesController.InstitucionesDb.UpdateStatus | backend/src/controllers/instituciones.controller.js:188-214 | a missing estado gives 400 and writes nothing; otherwise only the estado of row id changes |
| InstitucionesController.ApprovedRequestIsListed | backend/src/controllers/instituciones.controller.js:8-28 | an institution registered publicly and then set to `Aprobada` appears in the listing filtered by `Aprobada` |
| AuthController.NormalizeRole | backend/src/controllers/auth.controller.js:51 | the stored role is `ADMIN` exactly when `ADMIN` was requested and `STUDENT` otherwise |
| AuthController.FirstByEmail | backend/src/controllers/auth.controller.js:83-87 | the user found has that e-mail; none only when no user has it |
| AuthController.FirstById | backend/src/controllers/auth.controller.js:119-124 | the user found is the first with that id; none exactly when no user has it |
| AuthController.Login | backend/src/controllers/auth.controller.js:75-114 | missing e-mail or password gives 400; unknown e-mail and wrong password give the same 401 reply; success exactly when the stored hash accepts the password, with the user's public fields and the signature of a payload of exactly their id, email, role and nombre |
| AuthController.Me | backend/src/controllers/auth.controller.js:117-134 | 404 exactly when no user has the token's id; otherwise the whole selected row (id, nombre, email, role, cedula, carrera, created_at) of the first user with it |
| AuthController.RegisteredRow | backend/src/controllers/auth.controller.js:40-53 | the stored row holds the hash of the password (a digest, not the text), the normalised role, and NULL for missing cedula and carrera |
| AuthController.UsersDb.Register | backend/src/controllers/auth.controller.js:20-72 | 400 for a missing member, 409 and no insert for a taken e-mail, otherwise one row and 201 with the user and the signature of a payload of exactly its id, email, role and nombre; ids and e-mails stay distinct |
| AuthController.RegisterThenLogin | backend/src/controllers/auth.controller.js:92-109 | a user who has just registered logs in with the same e-mail and password and gets a token for the new row |
| AuthController.FirstByEmailAppend | backend/src/controllers/auth.controller.js:83-87 | after appending a user with a new e-mail, looking that e-mail up finds the new user |
| AuthMiddleware.Split | backend/src/middleware/auth.middleware.js:10 | `split` returns at least one part |
| AuthMiddleware.JoinSplit | backend/src/middleware/auth.middleware.js:10 | joining the parts of a split gives the header back |
| AuthMiddleware.SplitPartsFree | backend/src/middleware/auth.middleware.js:10 | no part contains the separator |
| AuthMiddleware.SplitAfterWord | backend/src/middleware/auth.middleware.js:10 | a separator-free word before the first separator is the first part |
| AuthMiddleware.BearerToken | backend/src/middleware/auth.middleware.js:10-16 | an accepted token is non-empty and contains no space |
| AuthMiddleware.BearerTokenOfWellFormed | backend/src/middleware/auth.middleware.js:10-16 | `Bearer <token>`, followed by nothing or by text after a space, is accepted with that token |
| AuthMiddleware.BearerTokenShape | backend/src/middleware/auth.middleware.js:10-16 | an accepted header is `Bearer `, the token, then nothing or text after a space |
| AuthMiddleware.Authenticate | backend/src/middleware/auth.middleware.js:3-27 | a missing header gives 401 `Token no proporcionado`; the request proceeds exactly when the header has the Bearer form and the token verifies, with the verified claims; every rejection is 401, with `Formato de autorización inválido` for a header without the Bearer form and `Token inválido o expirado` for a token that does not verify |
| AuthMiddleware.Exchange.AuthRequired | backend/src/middleware/auth.middleware.js:3-27 | on success `req.user` is the claims and `next` is called once; on failure a 401 reply and no call of `next` |
| AuthMiddleware.Exchange.AdminOnly | backend/src/middleware/auth.middleware.js:29-34 | 403 and no call of `next` unless the user exists with role `ADMIN`; otherwise `next` once |
| AuthMiddleware.WellFormedHeaderProceeds | backend/src/middleware/auth.middleware.js:18-22 | a well-formed header whose token verifies lets the request through with exactly the verified claims |
| SolicitudContext.Subject | src/contexts/SolicitudContext.jsx:456 | the subject is `Revisión: `, at most the first 20 characters of the objective, then `...` |
| SolicitudContext.NewSolicitud | src/contexts/SolicitudContext.jsx:453-469 | a new record is `Enviado`, `Medium`, owned by the current user, with the same `#NNNNN` code as the backend (`Codes.GenerateCodigo` of the draw), `req` from the form's name or the current user, and a single history entry `Solicitud Creada y Enviada` |
| SolicitudContext.StatusEntry | src/contexts/SolicitudContext.jsx:478-483 | the appended entry is `Estado cambiado a: <status>` by `Admin Revisor` with the observation, `""` when omitted |
| SolicitudContext.WithStatus | src/contexts/SolicitudContext.jsx:475-492 | length kept; every record with another id unchanged; the matching record gets the new status and its history grows by exactly that entry at the end, earlier entries unchanged |
| SolicitudContext.FirstOwnedBy | src/contexts/SolicitudContext.jsx:496 | the first record with that owner, none only when no record has it |
| SolicitudContext.SolicitudStore.AddSolicitud | src/contexts/SolicitudContext.jsx:450-472 | exactly one new record is put in front of the existing ones, in their order |
| SolicitudContext.SolicitudStore.UpdateSolicitudStatus | src/contexts/SolicitudContext.jsx:474-493 | the list becomes the status update above |
| SolicitudContext.SolicitudStore.GetMySolicitud | src/contexts/SolicitudContext.jsx:495-497 | the current user's first record, or none |
| SolicitudContext.AddedIsMine | src/contexts/SolicitudContext.jsx:471 | after a submission `getMySolicitud` finds the new record |
| SolicitudContext.UpdateKeepsMine | src/contexts/SolicitudContext.jsx:474-497 | a status change keeps the student's request found, with the new status when it was the one changed and unchanged otherwise |
| SolicitudContext.FirstOwnedIsAt | src/contexts/SolicitudContext.jsx:496 | the record found is the one at the first position with that owner |
| StudentStatusPage.ActiveStepIndex | src/pages/StudentStatusPage.jsx:20-25 | 7 exactly for Aprobado, 6 exactly for En Revisión or Observado, otherwise 5 (Rechazado included); always within 5..7 |
| StudentStatusPage.OneActiveStep | src/pages/StudentStatusPage.jsx:43-46 | exactly one step is active, all earlier ones are completed, no later one is completed or active |
| StudentStatusPage.WarningOnlyOnReview | src/pages/StudentStatusPage.jsx:47 | the warning mark is only on step 6 of an `Observado` request, which is then the active step |
| StudentStatusPage.NewestFirst | src/pages/StudentStatusPage.jsx:93 | the history is shown reversed, entry k being the k-th from the end |
| StudentStatusPage.LatestEntryOnTop | src/pages/StudentStatusPage.jsx:93 | a newly appended entry is shown first, above the previous history in its shown order |
| StudentPortal.StudentWizard.constructor | src/pages/StudentPortal.jsx:11-23 | the wizard opens at step 1 with the initial form |
| StudentPortal.StudentWizard.HandleChange | src/pages/StudentPortal.jsx:28-31 | the named member takes the value; every other member and the step are kept |
| StudentPortal.StudentWizard.HandleNext | src/pages/StudentPortal.jsx:33-48 | below step 4 it advances one step; at step 4 it alerts and adds nothing unless objective and institution are non-empty, and otherwise adds exactly one record to the store; the step stays within 1..4 |
| StudentPortal.StudentWizard.HandleBack | src/pages/StudentPortal.jsx:50-54 | one step back, nothing at step 1 |
| StudentPortal.WizardStepMarks | src/pages/StudentPortal.jsx:73-75 | a step is completed exactly before the current one and active exactly at it, never both |
| StudentPortal.ViewOf | src/pages/StudentPortal.jsx:115-123 | the status page exactly when the student has a request, showing the first one `getMySolicitud` finds; the wizard otherwise |
| StudentPortal.SubmissionShowsStatus | src/pages/StudentPortal.jsx:115-123 | after a successful submission the portal shows the new request at the `Enviado` step |
| AdminDashboard.SubjectBase | src/pages/AdminDashboard.jsx:125-128 | the searched subject falls back from objective to subject to the default text and is never empty |
| AdminDashboard.Filtered | src/pages/AdminDashboard.jsx:122-158 | the filtered list is an order-preserving subsequence, every element passes the filters, and every passing request is in it as often as in the list |
| AdminDashboard.DefaultFiltersKeepAll | src/pages/AdminDashboard.jsx:130-148 | with the default filters every request is listed |
| AdminDashboard.AssignedPartition | src/pages/AdminDashboard.jsx:145-148 | every request passes exactly one of `assigned` and `unassigned` whenever it passes `all` |
| AdminDashboard.AssignedPartitionCount | src/pages/AdminDashboard.jsx:145-148 | the `assigned` and `unassigned` listings together are as long as the `all` listing |
| AdminDashboard.DateBounds | src/pages/AdminDashboard.jsx:141-143 | with a date bound set every listed request has a due date within it, by string order (requests without one or outside it are not listed); a non-empty listing under both bounds means from <= to |
| AdminDashboard.AccentedSearchFindsCapitals | src/pages/AdminDashboard.jsx:123-134 | the search `ángel` finds the student `ÁNGEL MORA`: accented capitals are folded too |
| AdminDashboard.SearchIgnoresCase | src/pages/AdminDashboard.jsx:123-134 | a search and its lower-case form list the same requests |
| AdminDashboard.CountIn | src/pages/AdminDashboard.jsx:161-168 | a count never exceeds the number of requests |
| AdminDashboard.CountDisjoint | src/pages/AdminDashboard.jsx:161-168 | counts over disjoint status sets add up to the count over their union |
| AdminDashboard.SummaryWithinTotal | src/pages/AdminDashboard.jsx:160-168 | pending, approved and rejected counts add up to at most the total |
| AdminDashboard.StatusClass | src/pages/AdminDashboard.jsx:85-101 | blue exactly for Enviado, En Revisión, Open; yellow for Observado; green for Aprobado, Closed; red for Rechazado; grey for every other status |
| AdminDashboard.PriorityClass | src/pages/AdminDashboard.jsx:103-114 | red, yellow, blue exactly for High, Medium, Low; grey otherwise |
| AdminDashboard.HandleDecision | src/pages/AdminDashboard.jsx:61-77 | no selected request: no call and no change; otherwise one status call for the selected id, then the modal is closed |
| AdminDashboard.HandleApprove | src/pages/AdminDashboard.jsx:61-65 | no selection: no call and no change; otherwise one status call `Aprobado` with the selected id and the observation, then the modal is closed with no selection |
| AdminDashboard.HandleReject | src/pages/AdminDashboard.jsx:67-71 | no selection: no call and no change; otherwise one status call `Rechazado` with the selected id and the observation, then the modal is closed with no selection |
| AdminDashboard.HandleReturn | src/pages/AdminDashboard.jsx:73-77 | no selection: no call and no change; otherwise one status call `Observado` with the selected id and the observation, then the modal is closed with no selection |
| AdminDashboard.HandleAssign | src/pages/AdminDashboard.jsx:79-82 | no call exactly for the empty reviewer |
| SolicitudModal.HandleReturn | src/components/SolicitudModal.jsx:20-26 | returns to the student exactly when the observation is non-empty, otherwise alerts |
| SolicitudModal.HandleReject | src/components/SolicitudModal.jsx:32-38 | rejects exactly when the observation is non-empty, otherwise alerts |
| SolicitudModal.HandleApprove | src/components/SolicitudModal.jsx:28-30 | always approves, with the observation or `Aprobado sin comentarios.`, never with an empty one |
| SolicitudModal.Render | src/components/SolicitudModal.jsx:108-123 | nothing unless open with a request (lines 14-16); the decisions are shown exactly for Enviado, Observado, En Revisión, Open, and the observation is read-only exactly otherwise |
| InstitutionModal.HandleSubmit | src/components/InstitutionModal.jsx:32-45 | saves exactly when name and contact are non-empty, with exactly the three fields and the record's id in edit mode or no id otherwise; alerts otherwise |
| InstitutionModal.InstitutionModal.constructor | src/components/InstitutionModal.jsx:7-9 | the three fields start empty |
| InstitutionModal.InstitutionModal.OnOpen | src/components/InstitutionModal.jsx:15-29 | closed: nothing changes; opened for a new institution: the fields are cleared; opened on a record: the fields are the record's |
| InstitutionsPage.StatusClass | src/pages/InstitutionsPage.jsx:15-22 | green, yellow, red exactly for Aprobada, Pendiente, Rechazada; grey otherwise |
| InstitutionsPage.ActionsFor | src/pages/InstitutionsPage.jsx:160-183 | approve and reject are offered exactly for `Pendiente`; every other status gets only "Ver" |
| InstitutionsPage.MaxId | src/pages/InstitutionsPage.jsx:65 | the maximum is one of the ids and no id exceeds it |
| InstitutionsPage.WithStatus | src/pages/InstitutionsPage.jsx:43-45 | length and ids kept; only rows with that id get the status, every other row unchanged |
| InstitutionsPage.Merged | src/pages/InstitutionsPage.jsx:58-62 | the row with that id takes the form's name, contact and type and keeps its id and status; every other row unchanged |
| InstitutionsPage.Created | src/pages/InstitutionsPage.jsx:65-70 | the new institution is `Aprobada`, has the form's fields and an id that no row has |
| InstitutionsPage.Page.constructor | src/pages/InstitutionsPage.jsx:25-29 | the page starts from the five seeded institutions with the modal closed; the list invariant holds |
| InstitutionsPage.Page.OpenModal | src/pages/InstitutionsPage.jsx:32-35 | the modal opens on the given institution, or none for a new one; the list is kept |
| InstitutionsPage.Page.CloseModal | src/pages/InstitutionsPage.jsx:37-40 | the modal closes with no selection; the list is kept |
| InstitutionsPage.Page.HandleApprove | src/pages/InstitutionsPage.jsx:42-46 | the list becomes the `Aprobada` update; ids stay positive and distinct |
| InstitutionsPage.Page.HandleReject | src/pages/InstitutionsPage.jsx:48-52 | the list becomes the `Rechazada` update; ids stay positive and distinct |
| InstitutionsPage.Page.HandleSave | src/pages/InstitutionsPage.jsx:55-75 | with an id the matching row is merged; without one a new `Aprobada` institution with id max + 1 is put first; ids stay distinct and the modal always closes |
| InstitutionsPage.PrependKeepsValid | src/pages/InstitutionsPage.jsx:63-72 | putting first a row whose id exceeds every other keeps ids positive and distinct |
| InstitutionsPage.CreatedIdIsFresh | src/pages/InstitutionsPage.jsx:65 | the new id is greater than every existing id |
| InstitutionsPage.DecisionIsFinal | src/pages/InstitutionsPage.jsx:42-52 | an approved or rejected row offers only "Ver", and deciding it again the same way changes nothing |
| InstitutionsPage.UnchangedEditIsNoOp | src/pages/InstitutionsPage.jsx:55-62 | opening the modal on a row and saving without changes leaves the list as it was |
| SolicitudController.MissingRequired | backend/src/controllers/solicitud.controller.js:97-102 | the 400 check of a new request: one of institucion_nombre, justificacion, objetivo_general, vencimiento is absent, null or empty |
| InstitucionesController.MissingRequired | backend/src/controllers/instituciones.controller.js:45 | the 400 check of a public registration: one of nombre, cedula_juridica, supervisor_nombre, supervisor_email is absent, null or empty |
| AuthController.EmailTaken | backend/src/controllers/auth.controller.js:31-36 | the 409 check: some user already has the e-mail |
| AuthMiddleware.AdminAllowed | backend/src/middleware/auth.middleware.js:30 | the gate of `adminOnly`: a user is attached and its role is `ADMIN` |
| StudentStatusPage.Marks | src/pages/StudentStatusPage.jsx:43-47 | a step is completed before the active index, active at it, and warned when the request is `Observado` and the step is "En Revisión" |
| StudentPortal.ReadyToSubmit | src/pages/StudentPortal.jsx:38 | the final step's guard: objetivoGeneral and institucion are both present and non-empty |
| AdminDashboard.MatchesSearch | src/pages/AdminDashboard.jsx:123-134 | the search passes when empty, or when its lower case occurs in the lower-cased code (or id), student name, or subject |
| AdminDashboard.MatchesAssigned | src/pages/AdminDashboard.jsx:145-148 | `all` passes everything, `unassigned` only requests without a reviewer, `assigned` only requests with one |
| AdminDashboard.Matches | src/pages/AdminDashboard.jsx:130-157 | the conjunction of search, priority, status, both date bounds and assignment |
| AdminDashboard.CountIsStatusListing | src/pages/AdminDashboard.jsx:138-168 | counting the requests with one status gives the length of the listing with only that status filter set |
| AdminDashboard.Pendientes | src/pages/AdminDashboard.jsx:162-164 | the pending card equals the number of requests the status filter lists for Enviado plus the number it lists for Open |
| AdminDashboard.Aprobadas | src/pages/AdminDashboard.jsx:165-167 | the approved card equals the listings of the status filter for Aprobado plus Closed |
| AdminDashboard.Rechazadas | src/pages/AdminDashboard.jsx:168 | the rejected card equals the length of the status filter's listing for Rechazado |
| SolicitudModal.ShowsDecisions | src/components/SolicitudModal.jsx:119-122 | the decisions are offered for Enviado, Observado, En Revisión and Open |
| SolicitudModal.ObservationReadOnly | src/components/SolicitudModal.jsx:108-113 | the observation is read-only for every other status |
| InstitutionModal.InstitutionModal.SetName | src/components/InstitutionModal.jsx:82 | typing a name sets it and keeps the other two fields |
| InstitutionModal.InstitutionModal.SetContact | src/components/InstitutionModal.jsx:96 | typing a contact sets it and keeps the other two fields |
| InstitutionModal.InstitutionModal.SetServiceType | src/components/InstitutionModal.jsx:110 | typing a service type sets it and keeps the other two fields |
| Sorting.SortBy | backend/src/controllers/solicitud.controller.js:29 | `ORDER BY`: the result is sorted by the comparator and a permutation of the input |

## Left out

- Database and network failures: every `catch` that answers 500 is not modelled, and the two writes of an endpoint are not atomic in the source; the model performs both.
- SolicitudController.SolicitudesDb.UpdateStatus: a history row for an id with no request is appended in the model, while the database rejects it through its foreign key and the endpoint then answers 500.
- SolicitudController.SolicitudesDb.AssignReviewer: same as above for an id with no request.
- InstitucionesController.GetAllInstituciones: names are ordered by code point, not by the MySQL collation, which ignores case and accents; the estado filter is exact string equality as in InstitucionesController.WithStatus.
- InstitucionesController.WithStatus: `WHERE estado = ?` is modelled as exact string equality, while the MySQL collation also matches an estado differing only in case or accents (`aprobada` lists the `Aprobada` rows).
- SolicitudController.OwnedBy: `WHERE owner_email = ?` is modelled as exact string equality, while the MySQL collation also matches e-mails differing only in case or accents.
- SolicitudController.MySolicitudes: inherits the exact owner match of SolicitudController.OwnedBy.
- AuthController.UsersDb.Register: e-mails are compared exactly, while the MySQL collation would also treat e-mails differing only in case as taken.
- AuthController.Login: same collation remark for the e-mail lookup.
- Token expiry (`8h`), the secret and its `changeme` fallback belong to the token library and are not modelled; verification is a parameter.
- Request members that are not strings (a number where a text is expected, a `vencimiento` that the driver returns as a date object) are not modelled; body members are absent, null or strings, and `institucion_id`, `created_by_user_id` are optional integers.
- AdminDashboard.MatchesSearch: `toLowerCase` is modelled for ASCII and Latin-1 capitals (which covers Á É Í Ó Ú Ñ Ü); capitals outside Latin-1 (Greek, Cyrillic, `Ő`) and the special cases of full Unicode case mapping (`İ`) are left as they are.
- SolicitudContext.Subject: counts characters, not the UTF-16 code units that `substring` counts.
- SolicitudContext.NewSolicitud: requires `objetivoGeneral` in the form, because `substring` on a missing member throws; the wizard only submits after checking it is non-empty.
- The seeded request list of the frontend store (`initialSolicitudes`) is a constructor parameter of `SolicitudContext.SolicitudStore`, not spelled out.
- `alert`, navigation and the markup around the modelled decisions are not modelled; an alert is a value of the outcome.
- The dashboard reads `loading`, `fetchAllSolicitudes` and `assignReviewer` from the request store and filters rows in the shape of the backend table, while the in-memory store provides neither those three nor that shape; the dashboard is modelled over rows in the backend's shape and this wiring is not modelled.
- The review modal's observation text is component state; the handlers take its current value as a parameter.
- The institutions page computes the new id from the list of the current render and applies the update to the latest list; in a sequential model the two are the same list.
- The institution modal's `|| ""` fallbacks when loading a record never apply, because every field of a page record is a string.
- The wizard's step forms and the dashboard's remaining markup (reviewer list, row badges for assignment) are not modelled.
