# A verified model of the MAX university assistant

The system serves a university through the MAX messenger. It has three parts:

- a Python backend that keeps the university's records and runs the request approval workflow, payments, events, electives, the timetable, registration, broadcasts and menus;
- a Go bot that talks to users in MAX, guides them through registration and application forms, and relays the backend's pushes;
- a TypeScript mini-app whose pages turn the backend's records into view models.

This project models the core of each part in Dafny and proves properties about those models. There is one Dafny module per core source file, and a shared `Common` module holds Option/Result and the string helpers: trimming, case folding, splitting, joining, number formatting and sorting.

**Backend**

- `RequestModel` holds the request and approval-step records.
- `RequestService` is the approval workflow. Its parts are:
  - resolving the first and the next approver from the organisation directory;
  - create, approve and reject, as specification functions over a database value;
  - a `RequestStore` class whose methods are proved equal to those functions and keep the database invariant (every request has a well-formed step log).
- `RequestEndpoints`: the request endpoints' status codes, guards and document-ready notifications.
- `PaymentService`, `EventService` and `ElectiveService`: the state-changing services, each a class over its tables with the counters and history the source updates in place.
- `ScheduleService`: the lesson patches and the changelog.
- `UserService` and `RegistrationService`: verification, the profile, and registration through the bot.
- `BroadcastService`, `BroadcastEndpoints`, `BotNotify` and `MenuService`: broadcasts, their recipients, pushes to the bot, and the role menus.

**Bot**

- `AppBot`: the command and session dispatcher, with the message-text helpers.
- `HttpServer`: the bot's notify endpoints.
- `StdlogBridge`: secret redaction in log lines.
- `AppSchedule`: the timetable's week and today views.
- `AppMenu`: the menu registry.
- `AppRegistration` and `AppApplications`: the registration and application sessions.
- `AppHandlers`: the handlers that drive those sessions.
- `BackendApplications`: the application backend (request content, role mapping, and the stub that stores attachments).

**Mini-app**

- `MiniLib`: dates and asset URLs.
- `MiniRequests`: request cards and details.
- `MiniProfile`: the profile.
- `MiniLibrary`: library links.
- `MiniDocuments`: document links.
- `MiniRole`: the UI role.

**How the model is shaped**

- Tables are sequences or maps inside a value, and each service call is one atomic step.
- Where the source changes state in place, a class holds that state. Its methods are proved to produce exactly what a specification function computes, and lemmas about those functions state what the source promises.
- Every loop of the source, `for` and `while` alike, is a `while` loop of the model with its invariants, and the lesson sort runs in place on an array.
- Where the code has a bug (see Findings), the stores, endpoints and handlers do what the code does as written, and a corrected definition with its intended property stands beside them.
- Clocks, generated ids, JSON decoding, date formatting and HTTP calls are parameters of the functions that use them.

**Where the code differs from the system's design description (here the model follows the code)**

- Approve checks the caller against the current approver before it checks the status. A processed request has no approver, so the caller gets "Вы не являетесь текущим согласующим" rather than "already processed" (`RequestService.AlreadyProcessedUnreachable`).
- An academic-leave request whose deanery resolves nobody is finalised as APPROVED by the curator alone. It is not left pending (`RequestService.AcademicLeaveWithoutDeanery`).
- Document upload and listing answer 403, not "not found", to a caller who exists but may not act on the request.
- No lock or version check protects a request, so two concurrent approvals are not excluded by the code.

## Model

Each row names a member, the source lines it models, and what its contract states.

| member | source | states |
|---|---|---|
| RequestModel.ParseRequestType | backend/app/models/request.py:11-17 | a stored spelling parses only to the request type spelled that way |
| RequestModel.RequestTypeRoundTrip | backend/app/models/request.py:11-17 | there are exactly five request types; each parses back from its stored value, and only those five values parse |
| RequestModel.ParseRequestStatus | backend/app/models/request.py:20-24 | a stored spelling parses only to the status spelled that way |
| RequestModel.RequestStatusRoundTrip | backend/app/models/request.py:20-24 | there are exactly three statuses, pending, approved and rejected, each round-tripping through its stored value |
| RequestModel.ParseApprovalAction | backend/app/models/request_approval_step.py:11-15 | a stored spelling parses only to the step action spelled that way |
| RequestModel.ApprovalActionRoundTrip | backend/app/models/request_approval_step.py:11-15 | a step action is one of pending, approved or rejected, and each round-trips through its stored value |
| RequestModel.NewRequest | backend/app/models/request.py:28-37 | an inserted request is PENDING unless a status is given; it has no rejection reason yet, a nullable approver and both timestamps set to the insertion time |
| RequestModel.NewStep | backend/app/models/request_approval_step.py:22-30 | an inserted step's action defaults to PENDING, with no comment and no processing time; order, approver and role are as given |
| RequestModel.CloseStep | backend/app/models/request_approval_step.py:27-29 | closing a step moves it out of PENDING, records the comment and sets processed_at; every other column is kept |
| RequestService.FirstAdmin | backend/app/services/request_service.py:89-93 | the admin fallback finds a user exactly when one with the admin role exists, and what it finds is an admin |
| RequestService.DeaneryStaffForFaculty | backend/app/services/request_service.py:76-93 | an unknown faculty has no deanery; otherwise a staff member of the faculty's university, else an admin, else nobody |
| RequestService.HrStaffForUniversity | backend/app/services/request_service.py:123-135 | HR is a staff member of the university, else an admin, else nobody |
| RequestService.KafedraHeadForTeacher | backend/app/services/request_service.py:96-120 | the head follows the kafedra-head route: a non-teacher author has none; otherwise another teacher of the same kafedra, never the author, else an admin, and someone is found exactly when either exists |
| RequestService.CuratorOf | backend/app/services/request_service.py:147-151 | the curator is that of the author's own group; there is no fallback, and a non-student has none |
| RequestService.FirstApprover | backend/app/services/request_service.py:138-166 | a certificate has no approver; academic leave goes to the curator of the author's group; a transfer to staff of the university of the student's faculty, else an admin, and nobody when the student or the faculty is missing; vacation and document approval to the kafedra head |
| RequestService.FirstStepRole | backend/app/services/request_service.py:203-208 | the first step is labelled "Деканат" for a transfer, "Руководитель" for vacation and document approval, and "Куратор" otherwise |
| RequestService.NextApprover | backend/app/services/request_service.py:259-291 | a next approver exists only after step 1 was approved, and transfer and document approval have none; for academic leave it is labelled "Деканат" and is staff of the university of the student's faculty, else an admin; for vacation it is labelled "Отдел кадров" and is staff of the university above the teacher's kafedra, else an admin; someone is found whenever such staff or an admin exists and the chain of records is complete |
| RequestService.CurrentStep | backend/app/services/request_service.py:243-248 | the current step is a PENDING step of highest step_order; there is none exactly when no step is PENDING |
| RequestService.CloseCurrent | backend/app/services/request_service.py:250-253 | only the current step is closed, with the action, comment and time; every other step and the log's length are kept |
| RequestService.CreateSpec | backend/app/services/request_service.py:169-221 | create inserts one request under the next id (autoincrement) with the author, type and content given, adds a step log for that id only, and advances the id counter; every other request and step log is kept |
| RequestService.RequestStore.constructor | backend/app/models/request.py:27-47 | a new store holds the empty, valid database |
| RequestService.ApproveOne | backend/app/services/request_service.py:243-312 | approve keeps the request's identity, type, author, content and reason, and grows the log by at most one step |
| RequestService.RejectOne | backend/app/services/request_service.py:333-352 | reject keeps the request's identity, type, author and content, and never changes the number of steps |
| RequestService.ApproveSpec | backend/app/services/request_service.py:224-312 | approve fails exactly when a guard fails; on success only the request with that id and its step log may change, and the set of requests and the id counter are kept |
| RequestService.RejectSpec | backend/app/services/request_service.py:315-352 | reject fails exactly when a guard fails; on success only the request with that id and its step log may change, and the set of requests and the id counter are kept |
| RequestService.EmptyDb | backend/app/models/request.py:27-47 | the empty database satisfies the invariant that every request has a well-formed step log |
| RequestService.CurrentStepOfValidLog | backend/app/services/request_service.py:243-248 | on a well-formed log the current step is the last step when it is pending, and there is none otherwise |
| RequestService.CreatePreservesValid | backend/app/services/request_service.py:169-221 | create keeps the database invariant |
| RequestService.InsertPreservesValid | backend/app/services/request_service.py:192-221 | inserting a well-formed request and log under the next id keeps the invariant |
| RequestService.PutPreservesValid | backend/app/services/request_service.py:243-312 | replacing one request and its log by a well-formed pair keeps the invariant |
| RequestService.ApproveOneValid | backend/app/services/request_service.py:243-312 | approving a pending request with an approver yields a well-formed request and log |
| RequestService.ClosedThenNextValid | backend/app/services/request_service.py:293-303 | closing step 1 and appending a PENDING step 2 for the next approver keeps the log well-formed |
| RequestService.ClosedFinalValid | backend/app/services/request_service.py:304-308 | closing the last step and finalising the request as APPROVED without an approver keeps the log well-formed |
| RequestService.RejectOneValid | backend/app/services/request_service.py:333-352 | rejecting a pending request yields a well-formed request and log |
| RequestService.ApprovePreservesValid | backend/app/services/request_service.py:224-312 | a successful approve keeps the database invariant |
| RequestService.RejectPreservesValid | backend/app/services/request_service.py:315-352 | a successful reject keeps the database invariant |
| RequestService.CreateCertificate | backend/app/services/request_service.py:177-178 | a student certificate is created APPROVED, with no current approver and no steps |
| RequestService.CreateRouted | backend/app/services/request_service.py:180-217 | any other type is created PENDING with its route's first approver: one PENDING step of order 1 for that approver, labelled by type, or no step when the route resolves nobody |
| RequestService.UnroutableIsStuck | backend/app/services/request_service.py:236-237 | a request with no current approver can be neither approved nor rejected by anyone |
| RequestService.GuardOrder | backend/app/services/request_service.py:232-240 | the guards run in order: unknown request, then a caller who is not the current approver, then a request no longer PENDING; each error is raised before any change |
| RequestService.AlreadyProcessedUnreachable | backend/app/services/request_service.py:236-240 | since the identity check comes first and a processed request has no approver, "already processed" is never reported on a valid database |
| RequestService.ApproveStepLog | backend/app/services/request_service.py:243-308 | approve closes exactly the highest-order PENDING step, keeps all other steps and all other requests, and appends at most one PENDING step with the next order |
| RequestService.ApproveOutcome | backend/app/services/request_service.py:259-308 | the request stays PENDING, switched to the next approver, exactly when academic leave or vacation has passed step 1 and the second approver resolves; otherwise, including an unresolved second approver, it becomes APPROVED with no approver |
| RequestService.RejectOutcome | backend/app/services/request_service.py:333-352 | reject closes the current step REJECTED with the reason as comment, keeps every earlier step, adds no step, leaves every other request and log as it was, and leaves the request REJECTED with that reason and no approver |
| RequestService.ProcessedIsTerminal | backend/app/services/request_service.py:236-240 | an APPROVED or REJECTED request can be neither approved nor rejected again |
| RequestService.AcademicLeaveWithoutDeanery | backend/app/services/request_service.py:259-266 | an academic-leave request whose deanery resolves nobody is finalised as APPROVED by the curator alone |
| RequestService.KeysBetween | backend/app/services/request_service.py:40-73 | the table's keys in a range, each once and in increasing order |
| RequestService.Rows | backend/app/services/request_service.py:40-73 | every row listed is a stored request |
| RequestService.RowsOfValid | backend/app/services/request_service.py:40-73 | on a well-keyed database every request appears exactly once among the rows |
| RequestService.SortedByNegCreated | backend/app/services/request_service.py:73 | sorting by reversed creation time puts the newest first |
| RequestService.UserRequests | backend/app/services/request_service.py:35-37 | the list holds exactly the author's requests, newest first |
| RequestService.RequestDetail | backend/app/services/request_service.py:396-406 | a request is shown exactly to its author and its current approver |
| RequestService.RejectEndsApproverAccess | backend/app/services/request_service.py:336-352 | an approver who is not the author loses sight of a request once they reject it |
| RequestService.AwaitsApprovalOnValid | backend/app/services/request_service.py:44-65 | on a valid database the search through PENDING steps finds nothing the search through the current approver misses |
| RequestService.SortKeepsSelection | backend/app/services/request_service.py:73 | sorting newest first keeps exactly the selected requests, one per id |
| RequestService.ApprovalListOrder | backend/app/services/request_service.py:40-73 | the sorted selection is exactly the approval list, one per id and newest first |
| RequestService.MergeById | backend/app/services/request_service.py:68-71 | merging into a dict keyed by id adds the rows not yet present and keeps one request per id |
| RequestService.RequestStore.Create | backend/app/services/request_service.py:169-221 | create changes the stored tables exactly as CreateSpec says |
| RequestService.RequestStore.Approve | backend/app/services/request_service.py:224-312 | approve leaves the tables unchanged and returns the guard's error, or stores ApproveSpec's database and returns the updated request |
| RequestService.RequestStore.Reject | backend/app/services/request_service.py:315-352 | reject leaves the tables unchanged and returns the guard's error, or stores RejectSpec's database and returns the updated request |
| RequestService.RequestStore.ForApproval | backend/app/services/request_service.py:40-73 | the approval list holds exactly the PENDING requests the user is the current approver of or holds a PENDING step of, each once and newest first |
| RequestEndpoints.ReadyNotification | backend/app/api/v1/endpoints/requests.py:263-271 | the ready notification is sent exactly for an APPROVED student certificate or document approval whose user has a positive max id, and goes to that id |
| RequestEndpoints.NotifyWarning | backend/app/api/v1/endpoints/requests.py:270-277 | a warning is logged exactly when a notification was attempted and the bot refused it |
| RequestEndpoints.UserMaxId | backend/app/api/v1/endpoints/requests.py:280-286 | a max id is returned only for an existing user, and only when it is set and non-zero |
| RequestEndpoints.CreateFailure | backend/app/api/v1/endpoints/requests.py:136-137 | every exception while creating becomes a 400 whose detail is "Ошибка при создании заявки: " followed by the message |
| RequestEndpoints.ProcessFailure | backend/app/api/v1/endpoints/requests.py:163-166 | a ValueError becomes a 400 with its own message and anything else a 500 with the prefixed message |
| RequestEndpoints.CreateEndpoint | backend/app/api/v1/endpoints/requests.py:122-135 | create replies 201 with the created request, stores the created database and notifies the creator as ReadyNotification says |
| RequestEndpoints.ApproveEndpoint | backend/app/api/v1/endpoints/requests.py:146-166 | a failed guard replies 400 with its message and changes nothing; otherwise the reply is 200 with the approved request, and the author is notified when ReadyNotification says so |
| RequestEndpoints.RejectEndpoint | backend/app/api/v1/endpoints/requests.py:175-193 | reject never notifies; a failed guard replies 400 and changes nothing, otherwise 200 with the rejected request |
| RequestEndpoints.BotFailureIsInvisible | backend/app/api/v1/endpoints/requests.py:270-277 | whatever the bot answers, create and approve reply and store the same and attempt the same notification |
| RequestEndpoints.CreateNotifiesOnlyCertificates | backend/app/api/v1/endpoints/requests.py:134 | at creation only a student certificate notifies, exactly when the creator has a positive max id |
| RequestEndpoints.ApproveNotifies | backend/app/api/v1/endpoints/requests.py:160-161 | on a valid database approving a document-approval request notifies its author whenever they have a positive max id; the other types never notify on approval |
| RequestEndpoints.FileUrl | backend/app/api/v1/endpoints/requests.py:101 | the file URL is the static base with its trailing slashes removed, one slash and the stored path |
| RequestEndpoints.DocumentsOf | backend/app/services/request_service.py:391-393 | the listing holds exactly the request's documents, each with its file URL |
| RequestEndpoints.DetailEndpoint | backend/app/api/v1/endpoints/requests.py:79-112 | the detail is 404 unless the caller may see the request; otherwise 200 with the request, its documents, and its steps sorted by step_order, as a permutation of the stored log |
| RequestEndpoints.DetailStepsOnValid | backend/app/api/v1/endpoints/requests.py:91-93 | on a valid database the steps come back exactly in the order they were appended |
| RequestEndpoints.UploadGuard | backend/app/api/v1/endpoints/requests.py:210-215 | an upload passes the guard exactly for the request's author; otherwise 404 for an unknown request and 403 for anyone else |
| RequestEndpoints.DocumentsEndpoint | backend/app/api/v1/endpoints/requests.py:240-260 | the listing succeeds exactly for the author and the current approver, with 404 for an unknown request and 403 otherwise |
| RequestEndpoints.UploaderMayList | backend/app/api/v1/endpoints/requests.py:210-260 | whoever may upload may list, and the listing equals the detail view's document list |
| PaymentService.TypeValue | backend/app/models/payment.py:11-15 | a payment type is stored as "tuition", "dormitory" or "event" |
| PaymentService.TypeValueInjective | backend/app/models/payment.py:11-15 | two payment types share a stored value only when they are the same type |
| PaymentService.FindPayment | backend/app/services/payment_service.py:23-25 | the lookup by id finds the first payment with that id, and fails exactly when there is none |
| PaymentService.FindByYookassa | backend/app/services/payment_service.py:33-35 | the lookup by provider id finds the first payment carrying it, and fails exactly when none does |
| PaymentService.CreateErrorIffUnacceptable | backend/app/services/payment_service.py:40-62 | validation raises exactly when the data is unacceptable: an event payment needs a known paid event and its price, while tuition and dormitory need no event id, a period and a description |
| PaymentService.CreateSpec | backend/app/services/payment_service.py:38-80 | create fails exactly when the validation fails |
| PaymentService.InitiateSpec | backend/app/services/payment_service.py:90-95 | initiation fails exactly for an unknown payment or one that is not PENDING |
| PaymentService.CancelSpec | backend/app/services/payment_service.py:195-200 | cancellation fails exactly for an unknown payment or one that succeeded, was cancelled or was refunded |
| PaymentService.Trace | backend/app/services/payment_service.py:212-216 | a payment's history holds only rows of that payment |
| PaymentService.TraceAppend | backend/app/services/payment_service.py:219-234 | appending a history row extends only its own payment's history |
| PaymentService.TraceAbsent | backend/app/services/payment_service.py:212-216 | a payment with no rows has an empty history |
| PaymentService.ExtendTracks | backend/app/services/payment_service.py:219-234 | a row that leaves from the payment's current status keeps its history a chain ending in the payment's new status |
| PaymentService.OtherTracks | backend/app/services/payment_service.py:219-234 | a row for another payment leaves this payment's chain intact |
| PaymentService.RecordShape | backend/app/services/payment_service.py:219-234 | recording a move replaces one payment, keeps the others and appends exactly one history row naming both statuses |
| PaymentService.RecordValid | backend/app/services/payment_service.py:160-207 | a move recorded with the payment's current status as the old status keeps the tables valid |
| PaymentService.AppendValid | backend/app/services/payment_service.py:64-78 | a payment with a fresh id, entered with its first history row, keeps the tables valid and has that row as its whole history |
| PaymentService.AppendTracked | backend/app/services/payment_service.py:64-78 | a new payment's history is its first row, and every payment stays tracked |
| PaymentService.AppendNoOrphans | backend/app/services/payment_service.py:64-78 | appending a payment with its own row leaves no history row without a payment |
| PaymentService.CreateOutcome | backend/app/services/payment_service.py:64-80 | a created payment is appended PENDING for its payer and amount, carries an event id only for an event payment, and starts its history with None to PENDING, "Платеж создан" |
| PaymentService.InitiateOutcome | backend/app/services/payment_service.py:106-142 | initiation moves a PENDING payment to PROCESSING with the provider id "yookassa_" plus the uuid and the checkout URL built from it, and records PENDING to PROCESSING |
| PaymentService.CancelOutcome | backend/app/services/payment_service.py:202-207 | cancellation moves a PENDING, PROCESSING or FAILED payment to CANCELLED, records the status it left and changes no other payment |
| PaymentService.WebhookUnknownIsNoop | backend/app/services/payment_service.py:152-158 | without an object id, or for an unknown provider id, the webhook changes nothing and returns nothing |
| PaymentService.WebhookOutcome | backend/app/services/payment_service.py:160-190 | for a known payment the event's target status is set with exactly one history row from the old status; other events return the payment unchanged; only a success sets paid_at or touches the events tables |
| PaymentService.WebhookRevivesClosedPayment | backend/app/services/payment_service.py:163-166 | the webhook ignores the current status, so even a cancelled or refunded payment becomes SUCCESS |
| PaymentService.WebhookRegistersPayer | backend/app/services/payment_service.py:168-175 | a successful event payment registers its payer when registration succeeds; a refused registration is swallowed and leaves the events tables as they were |
| PaymentService.OwedAppend | backend/app/services/payment_service.py:250-254 | the sum over payments with one more appended adds what that payment owes |
| PaymentService.OwedUpdate | backend/app/services/payment_service.py:250-254 | replacing one payment changes each sum by the difference of what the two payments owe |
| PaymentService.BalanceUpdate | backend/app/services/payment_service.py:237-260 | replacing one payment changes the tuition and dormitory amounts by the difference of what the two payments owe |
| PaymentService.EventPaymentsNeverOwed | backend/app/services/payment_service.py:250-254 | event payments never count towards the balance |
| PaymentService.CreateRaisesBalance | backend/app/services/payment_service.py:64-72 | creating a payment raises the payer's total by its amount, unless it is an event payment |
| PaymentService.InitiateKeepsBalance | backend/app/services/payment_service.py:240-245 | initiation keeps every balance, since PENDING and PROCESSING both count as unpaid |
| PaymentService.CancelLowersBalance | backend/app/services/payment_service.py:202-207 | cancelling an unpaid tuition or dormitory payment lowers its payer's total by its amount |
| PaymentService.PaymentStore.constructor | backend/app/models/payment.py:28-73 | a new store holds the given tables |
| PaymentService.PaymentStore.AddHistory | backend/app/services/payment_service.py:219-234 | adding history appends exactly one row and keeps the payments |
| PaymentService.PaymentStore.Create | backend/app/services/payment_service.py:38-80 | create leaves the tables unchanged and returns the validation error, or stores CreateSpec's tables and returns the new payment |
| PaymentService.PaymentStore.Initiate | backend/app/services/payment_service.py:83-144 | initiate leaves the tables unchanged and returns the error, or stores InitiateSpec's tables and returns the updated payment |
| PaymentService.PaymentStore.Cancel | backend/app/services/payment_service.py:193-209 | cancel leaves the tables unchanged and returns the error, or stores CancelSpec's tables and returns the updated payment |
| PaymentService.PaymentStore.ProcessWebhook | backend/app/services/payment_service.py:147-190 | the webhook stores the payments and events WebhookSpec computes and returns its payment |
| PaymentService.PaymentStore.GetBalance | backend/app/services/payment_service.py:237-260 | the loop's sums equal the balance function, and the total is tuition plus dormitory |
| EventService.FindEvent | backend/app/services/event_service.py:19-21 | the lookup finds the first event with the id, and fails exactly when there is none |
| EventService.FindRegistration | backend/app/services/event_service.py:108-113 | the lookup finds the first registration of the pair, and fails exactly when there is none |
| EventService.IsUserRegistered | backend/app/services/event_service.py:167-175 | a user is registered exactly when a registration row for the pair exists |
| EventService.CountFor | backend/app/services/event_service.py:178-180 | the participants count is at most the number of rows, and zero exactly when no row names the event |
| EventService.RegisterSpec | backend/app/services/event_service.py:101-142 | register fails, in this order, for an unknown event, an existing registration, a full event (current at or above max) and a past event, and succeeds exactly when none applies |
| EventService.UnregisterSpec | backend/app/services/event_service.py:145-164 | unregister fails, with "Вы не записаны на это мероприятие", exactly when the user is not registered |
| EventService.DropCounter | backend/app/services/event_service.py:157-160 | lowering an event's counter keeps the table's length and every event id |
| EventService.CountConcat | backend/app/services/event_service.py:178-180 | the count over two tables joined is the sum of their counts |
| EventService.CountRemove | backend/app/services/event_service.py:162 | deleting a row lowers the count of its own event by one and no other count |
| EventService.SameIdsDistinct | backend/app/services/event_service.py:137-138 | changing counters keeps the event ids distinct |
| EventService.RegisterCounters | backend/app/services/event_service.py:131-138 | adding a row and raising its event's counter, when it is below capacity, keeps every counter equal to its row count and within capacity |
| EventService.DropCounterOnDistinct | backend/app/services/event_service.py:157-160 | with one row per event id, lowering a counter touches exactly that event's row |
| EventService.UnregisterCounters | backend/app/services/event_service.py:157-162 | deleting a row and lowering its event's counter keeps every counter equal to its row count, and lowers exactly that event's counter by one |
| EventService.AppendPairsUnique | backend/app/services/event_service.py:108-134 | a row added for an unregistered pair keeps one row per pair |
| EventService.RemovePairsUnique | backend/app/services/event_service.py:162 | deleting a row keeps one row per pair and leaves no row of the deleted pair |
| EventService.RegisterOutcome | backend/app/services/event_service.py:131-142 | a successful register appends exactly the new row, raises exactly its event's counter by one and keeps the tables valid |
| EventService.UnregisterOutcome | backend/app/services/event_service.py:145-164 | a successful unregister removes one row, lowers exactly its event's counter by one (the floor at 0 never applies on valid tables) and leaves the pair unregistered |
| EventService.RegisterThenUnregister | backend/app/services/event_service.py:101-164 | unregistering right after registering restores both tables |
| EventService.RegisterThenUnregisterAt | backend/app/services/event_service.py:101-164 | the same round trip at a given event index, whenever its counter is not negative |
| EventService.FindRegistrationIs | backend/app/services/event_service.py:108-113 | the first row of the pair is the one the lookup finds |
| EventService.FindEventIs | backend/app/services/event_service.py:19-21 | the first event with the id is the one the lookup finds |
| EventService.ParticipantsCountIsCounter | backend/app/services/event_service.py:178-180 | on valid tables the stored counter equals get_event_participants_count |
| EventService.AllEvents | backend/app/services/event_service.py:24-37 | the list has at most limit events, each stored and upcoming when asked, sorted by date ascending |
| EventService.AllEventsComplete | backend/app/services/event_service.py:24-37 | with no offset and a large enough limit every qualifying event is listed |
| EventService.EventStore.constructor | backend/app/models/event.py:23-57 | a new store holds the given tables |
| EventService.EventStore.Register | backend/app/services/event_service.py:101-142 | register leaves the tables unchanged and returns the error, or stores RegisterSpec's tables and returns the new registration |
| EventService.EventStore.Unregister | backend/app/services/event_service.py:145-164 | unregister leaves the tables unchanged and returns the error, or stores UnregisterSpec's tables and returns true |
| ElectiveService.FindElective | backend/app/services/elective_service.py:11-13 | the lookup finds the first elective with the id, and fails exactly when there is none |
| ElectiveService.FindRegistration | backend/app/services/elective_service.py:84-89 | the lookup finds the first registration of the pair, and fails exactly when there is none |
| ElectiveService.IsUserRegistered | backend/app/services/elective_service.py:134-142 | a user is registered exactly when a registration row for the pair exists |
| ElectiveService.CountFor | backend/app/services/elective_service.py:95-105 | the row count is at most the number of rows, and zero exactly when no row names the elective |
| ElectiveService.RegisterSpec | backend/app/services/elective_service.py:74-109 | register fails, in this order, for an unknown elective, an inactive one (flag 0), an existing registration and a full elective, and succeeds exactly when none applies |
| ElectiveService.UnregisterSpec | backend/app/services/elective_service.py:112-131 | unregister fails, with "Вы не записаны на этот электив", exactly when the user is not registered |
| ElectiveService.DropCounter | backend/app/services/elective_service.py:124-127 | lowering an elective's counter keeps the table's length and every elective id |
| ElectiveService.CountConcat | backend/app/services/elective_service.py:98-105 | the count over two tables joined is the sum of their counts |
| ElectiveService.CountRemove | backend/app/services/elective_service.py:129 | deleting a row lowers the count of its own elective by one and no other count |
| ElectiveService.SameIdsDistinct | backend/app/services/elective_service.py:104-105 | changing counters keeps the elective ids distinct |
| ElectiveService.RegisterCounters | backend/app/services/elective_service.py:98-105 | adding a row and raising its elective's counter, when it is below capacity, keeps every counter equal to its row count and within capacity |
| ElectiveService.DropCounterOnDistinct | backend/app/services/elective_service.py:124-127 | with one row per elective id, lowering a counter touches exactly that elective's row |
| ElectiveService.UnregisterCounters | backend/app/services/elective_service.py:124-129 | deleting a row and lowering its elective's counter keeps every counter equal to its row count, and lowers exactly that counter by one |
| ElectiveService.AppendPairsUnique | backend/app/services/elective_service.py:84-102 | a row added for an unregistered pair keeps one row per pair |
| ElectiveService.RemovePairsUnique | backend/app/services/elective_service.py:129 | deleting a row keeps one row per pair and leaves no row of the deleted pair |
| ElectiveService.RegisterOutcome | backend/app/services/elective_service.py:98-109 | a successful register appends exactly the new row, raises exactly its elective's counter by one and keeps the tables valid |
| ElectiveService.UnregisterOutcome | backend/app/services/elective_service.py:112-131 | a successful unregister removes one row, lowers exactly its elective's counter by one (the floor at 0 never applies on valid tables) and leaves the pair unregistered |
| ElectiveService.RegisterThenUnregister | backend/app/services/elective_service.py:74-131 | unregistering right after registering restores both tables |
| ElectiveService.RegisterThenUnregisterAt | backend/app/services/elective_service.py:74-131 | the same round trip at a given elective index, whenever its counter is not negative |
| ElectiveService.FindRegistrationIs | backend/app/services/elective_service.py:84-89 | the first row of the pair is the one the lookup finds |
| ElectiveService.FindElectiveIs | backend/app/services/elective_service.py:11-13 | the first elective with the id is the one the lookup finds |
| ElectiveService.ParticipantsCountIsCounter | backend/app/services/elective_service.py:95-105 | on valid tables the stored counter equals the number of registrations |
| ElectiveService.NewestFirst | backend/app/services/elective_service.py:29 | sorted by reversed creation time means newest first |
| ElectiveService.AllElectives | backend/app/services/elective_service.py:16-29 | the list has at most limit electives, each stored and active with flag 1 when asked, newest created first |
| ElectiveService.AllElectivesComplete | backend/app/services/elective_service.py:16-29 | with no offset and a large enough limit every qualifying elective is listed |
| ElectiveService.UserElectives | backend/app/services/elective_service.py:32-39 | the user's electives are exactly the active ones (flag 1) they are registered in, newest created first |
| ElectiveService.RegisteredShowsInMine | backend/app/services/elective_service.py:32-109 | an elective just joined is among the user's electives exactly when its flag is 1 |
| ElectiveService.ElectiveStore.constructor | backend/app/models/elective.py:10-43 | a new store holds the given tables |
| ElectiveService.ElectiveStore.Register | backend/app/services/elective_service.py:74-109 | register leaves the tables unchanged and returns the error, or stores RegisterSpec's tables and returns the new registration |
| ElectiveService.ElectiveStore.Unregister | backend/app/services/elective_service.py:112-131 | unregister leaves the tables unchanged and returns the error, or stores UnregisterSpec's tables and returns true |
| ScheduleService.FindLesson | backend/app/services/schedule_service.py:116 | the lookup finds the first lesson with the id, and fails exactly when there is none |
| ScheduleService.LinksFor | backend/app/services/schedule_service.py:73-78 | one link per group id, in the given order |
| ScheduleService.LinksWithout | backend/app/services/schedule_service.py:129 | deleting a lesson's links leaves none of them |
| ScheduleService.GroupsOfAppend | backend/app/services/schedule_service.py:73-78 | the groups of a lesson over two link tables joined are the groups of each, in order |
| ScheduleService.GroupsOfLinksFor | backend/app/services/schedule_service.py:73-78 | the links made for a lesson name exactly the given groups, and no other lesson |
| ScheduleService.GroupsOfWithout | backend/app/services/schedule_service.py:129 | deleting a lesson's links removes all its groups and keeps every other lesson's |
| ScheduleService.ParseLesson | backend/app/services/schedule_service.py:98 | the patch data validates exactly when the four lesson columns are numbers and group_ids, when given, is a list; the groups are that list, or none |
| ScheduleService.CreateLessonLinks | backend/app/services/schedule_service.py:61-82 | a lesson created under a fresh id is linked to exactly its group ids, in order, and no other lesson's links change |
| ScheduleService.ApplyUpdate | backend/app/services/schedule_service.py:122-124 | every lesson attribute the data names with a scalar value, the id included, is set to that value; an attribute the data does not name keeps its value |
| ScheduleService.UpdateTouchesOnlyNamedColumns | backend/app/services/schedule_service.py:122-124 | an update changes only the attributes its data names, and keeps the id unless the data names it; keys that are not lesson attributes have no effect |
| ScheduleService.LatestMeta | backend/app/services/schedule_service.py:171-173 | the latest meta of a group has the highest version among its metas, and there is none exactly when the group has no meta |
| ScheduleService.BumpOutcome | backend/app/services/schedule_service.py:170-182 | the bump happens only for a given group with a meta; it adds exactly one meta copying teacher and week with a version above every version of the group, and changes nothing else |
| ScheduleService.SkippedPatchLeavesNoTrace | backend/app/services/schedule_service.py:93-95 | a create without data, an update without lesson id or data, a delete without lesson id and an unknown action change nothing and add no result |
| ScheduleService.CreateStepOutcome | backend/app/services/schedule_service.py:97-110 | a create patch adds the lesson, reports success and logs "create" with the lesson's teacher under the batch's group, else the lesson's first group, else none |
| ScheduleService.CreateStepLogs | backend/app/services/schedule_service.py:97-110 | a create step logs exactly one entry with its success |
| ScheduleService.UpdateStepLogs | backend/app/services/schedule_service.py:112-144 | an update step logs one entry exactly when it succeeds; an unknown lesson yields "Lesson not found" and changes nothing |
| ScheduleService.DeleteStepLogs | backend/app/services/schedule_service.py:146-167 | a delete step logs one entry exactly when it succeeds; an unknown lesson yields "Lesson not found" and changes nothing |
| ScheduleService.StepLogsSuccess | backend/app/services/schedule_service.py:92-167 | every step appends one changelog entry exactly when it reports a success and never rewrites earlier entries |
| ScheduleService.FoldLogsSuccesses | backend/app/services/schedule_service.py:90-167 | over a batch the changelog grows by one entry per successful result, keeping earlier entries, with at most one result per patch |
| ScheduleService.UpdateReplacesLinks | backend/app/services/schedule_service.py:122-133 | an update with group_ids leaves the lesson, under its possibly updated id, linked to exactly those groups; other lessons keep theirs |
| ScheduleService.AsWrittenUpdateGroup | backend/app/services/schedule_service.py:127-138 | as written, an update with group_ids rebinds the batch's group to the last of them and is logged under it; an update without groups keeps the group and is logged under it |
| ScheduleService.DeleteOutcome | backend/app/services/schedule_service.py:150-165 | a delete logs the lesson's teacher under the batch's group before removing the lesson's row and all its links |
| ScheduleService.IntendedKeepsScope | backend/app/services/schedule_service.py:85-167 | with the group kept apart from the loop variable, it stays the requested group through the whole batch |
| ScheduleService.IntendedNoGroupNoBump | backend/app/services/schedule_service.py:169-182 | with the intended scoping a batch without a group never bumps a version |
| ScheduleService.FoldKeepsMetas | backend/app/services/schedule_service.py:92-167 | the patch loop itself never touches the metas |
| ScheduleService.IntendedUpdateGroup | backend/app/services/schedule_service.py:136-138 | with the intended scoping an update is logged under the batch's group, else its first linked group |
| ScheduleService.AsWrittenRebindsGroup | backend/app/services/schedule_service.py:131 | as written, an update linking groups 5 and 7 in a batch without a group logs group 7 and bumps group 7's version |
| ScheduleService.IntendedWitness | backend/app/services/schedule_service.py:131-137 | with the intended scoping the same batch logs group 5 and leaves the versions alone |
| ScheduleService.Changelog | backend/app/services/schedule_service.py:188-197 | the changelog query returns exactly the entries matching the given filters, as a permutation, newest first |
| ScheduleService.ScheduleStore.constructor | backend/app/models/schedule_changelog.py:1-20 | a new store holds the given tables |
| ScheduleService.ScheduleStore.AddLinks | backend/app/services/schedule_service.py:73-78 | the link loop appends one link per group id and changes nothing else |
| ScheduleService.ScheduleStore.CreateLesson | backend/app/services/schedule_service.py:61-82 | create_lesson stores the tables CreateLessonSpec describes |
| ScheduleService.ScheduleStore.CreateFromPatch | backend/app/services/schedule_service.py:93-110 | a create patch stores CreateStep's tables and returns its result, or fails when the data does not validate |
| ScheduleService.ScheduleStore.UpdateFromPatch | backend/app/services/schedule_service.py:112-144 | an update patch stores the as-written UpdateStep's tables, returns its result and the rebound group, or fails when group_ids is not a list |
| ScheduleService.ScheduleStore.DeleteFromPatch | backend/app/services/schedule_service.py:146-167 | a delete patch stores DeleteStep's tables and returns its result |
| ScheduleService.ScheduleStore.ApplyPatch | backend/app/services/schedule_service.py:92-167 | one iteration stores the as-written PatchStep's tables and returns its result and the group variable it leaves |
| ScheduleService.ScheduleStore.BumpVersion | backend/app/services/schedule_service.py:169-182 | the bump stores the tables Bump describes |
| ScheduleService.ScheduleStore.PatchBatch | backend/app/services/schedule_service.py:85-185 | the batch loop, with the group variable rebound as written, stores the as-written PatchSchedule's tables and returns its results |
| ScheduleService.FoldErrStays | backend/app/services/schedule_service.py:85-185 | once a prefix of the batch fails, the whole batch fails |
| UserService.RoleValue | backend/app/models/user.py:11-14 | a role is stored as "student", "staff" or "admin" |
| UserService.RoleValueInjective | backend/app/models/user.py:11-14 | two roles share a stored value only when they are the same role |
| UserService.FindUser | backend/app/services/user_service.py:13-14 | the lookup finds the first user with the id, and fails exactly when there is none |
| UserService.StudentLinked | backend/app/services/user_service.py:69-79 | the student found by card has a user row |
| UserService.StaffLinked | backend/app/services/user_service.py:104-113 | the staff member found by tab number has a user row |
| UserService.TeacherLinked | backend/app/services/user_service.py:27-29 | the teacher found by tab number has a user row |
| UserService.BindShape | backend/app/services/user_service.py:82-85 | binding sets the messenger id of the one user, only when the request carries one, and changes nothing else |
| UserService.BindKeepsLinks | backend/app/services/user_service.py:82-85 | binding keeps every person row linked to its user |
| UserService.VerifiedOutcome | backend/app/services/user_service.py:78-92 | a found person's user alone gets the messenger id, when one is given, and the reply reports success, the user and the id now bound |
| UserService.VerifyOutcome | backend/app/services/user_service.py:52-135 | verification succeeds exactly when a student is found by card or a staff member by tab number; it then binds that user alone and reports the bound id, while a failure changes nothing and names no user |
| UserService.VerifyMessages | backend/app/services/user_service.py:59-135 | each outcome carries its message: card or tab number required, data not found, role not supported, or the binding |
| UserService.VerifyIgnoresNameAndCity | backend/app/services/user_service.py:52-135 | the name and city in the request play no part in verification |
| UserService.StaffVerifyIgnoresTeachers | backend/app/services/user_service.py:104 | staff verification reads only the staff table, so a teacher's tab number is never found by it |
| UserService.LeadingDigits | backend/app/services/user_service.py:167 | the leading digits are the longest all-digit prefix, what `(\d+)` matches at the start |
| UserService.LeadingDigitsOf | backend/app/services/user_service.py:167 | digits followed by a non-digit are read exactly |
| UserService.CourseOfGroupName | backend/app/services/user_service.py:164-171 | a group name starting with the number n reads as course n // 100 when n is at least 100, else n, followed by " курса" |
| UserService.NoDigitsNoCourse | backend/app/services/user_service.py:164-168 | a group name without a leading digit leaves the course "Не указан" |
| UserService.ProfileSpec | backend/app/services/user_service.py:138-142 | the profile fails, with "Пользователь не найден", exactly for an unknown user |
| UserService.ProfileFields | backend/app/services/user_service.py:144-187 | the name and role value always; study fields exactly for a student with a student record; a place of work exactly for staff; a tab number only for staff with a teacher or staff record, the teacher's first; nothing else for an admin |
| UserService.PlaceShape | backend/app/services/user_service.py:149-153 | the place reads "name, city" of the linked university, else the user's own city |
| UserService.AccountStore.constructor | backend/app/models/user.py:17-40 | a new store holds the given tables |
| UserService.AccountStore.BindMaxId | backend/app/services/user_service.py:82-85 | the store's tables become Bind's |
| UserService.AccountStore.VerifyUser | backend/app/services/user_service.py:52-135 | the store's tables and the reply are those VerifySpec computes |
| RegistrationService.StaffOrTeacherLinked | backend/app/services/registration_service.py:284-287 | the staff or teacher record behind a tab number, the staff record first, has a user row |
| RegistrationService.UserWithMaxId | backend/app/services/registration_service.py:40 | no user is found exactly when no user holds the messenger id |
| RegistrationService.AfterPersonLinked | backend/app/services/registration_service.py:243-296 | the person verification after registration finds has a user row |
| RegistrationService.VerifyAfterOutcome | backend/app/services/registration_service.py:222-323 | verification after registration succeeds exactly when it finds a person whose user has the requested name and city; success binds the given messenger id to that user alone and reports it, failure changes nothing and names no user |
| RegistrationService.ConfirmOutcome | backend/app/services/registration_service.py:252-273 | a found user is confirmed exactly when the name and city match, and only then gets the messenger id |
| RegistrationService.StaffRecordWins | backend/app/services/registration_service.py:284-287 | a tab number with both a staff and a teacher record is confirmed as the staff member |
| RegistrationService.StudentAfterImpliesVerify | backend/app/services/registration_service.py:234-273 | for a student, a check after registration that succeeds means verify_user also succeeds with the same user and leaves the same tables |
| RegistrationService.AdoptBound | backend/app/services/registration_service.py:83-94 | after the check has bound the messenger id, loading the confirmed user returns it and changes nothing more |
| RegistrationService.CheckedOutcome | backend/app/services/registration_service.py:69-94 | once past the field checks, registration succeeds exactly when the applicant is confirmed, and then returns the confirmed user holding the messenger id |
| RegistrationService.RegisterStudentOutcome | backend/app/services/registration_service.py:44-132 | a student registers exactly with faculty, group and card given, the faculty in the university, the group in the faculty and the applicant confirmed; an error changes nothing |
| RegistrationService.RegisterStaffOutcome | backend/app/services/registration_service.py:134-216 | staff register exactly with department and tab number given, the department under a faculty of the university and the applicant confirmed; an error changes nothing |
| RegistrationService.RegisteredAsShape | backend/app/services/registration_service.py:83-94 | a successful registration returns the confirmed user with the requested name and city, now holding the messenger id, and touches no other row |
| RegistrationService.RegisterOutcome | backend/app/services/registration_service.py:18-219 | registration succeeds exactly when the university exists, its city matches, the messenger id is free, the role's fields and records check out and the applicant is confirmed; it creates no user, and an error leaves every table as it was |
| RegistrationService.RegisterKeepsMaxIdsUnique | backend/app/services/registration_service.py:39-42 | refusing a messenger id already held keeps messenger ids unique across users |
| RegistrationService.VerifyAfter | backend/app/services/registration_service.py:222-323 | the stored tables and the reply are those VerifyAfterSpec computes |
| RegistrationService.Register | backend/app/services/registration_service.py:18-219 | the stored tables and the result are those RegisterSpec computes |
| RegistrationService.AdoptIn | backend/app/services/registration_service.py:83-94 | the confirmed user is found exactly when its id is in the users table; it then alone gets the messenger id and is returned, otherwise nothing changes |
| RegistrationService.RegisterStudentIn | backend/app/services/registration_service.py:44-132 | the stored tables and the result are those of the student branch |
| RegistrationService.CreateStudent | backend/app/services/registration_service.py:99-132 | the fallback refuses a card already registered, else adds the user and the student |
| RegistrationService.RegisterStaffIn | backend/app/services/registration_service.py:134-216 | the stored tables and the result are those of the staff branch |
| RegistrationService.CreateTeacher | backend/app/services/registration_service.py:181-216 | the fallback refuses a tab number already registered, else adds the user and the teacher |
| BroadcastService.Newest | backend/app/services/broadcast_service.py:43 | the ordering is a permutation of its input, sorted newest first |
| BroadcastService.NewestFirst | backend/app/services/broadcast_service.py:43 | in the ordered feed a later broadcast never follows an earlier one |
| BroadcastService.AimedAt | backend/app/services/broadcast_service.py:36-41 | the broadcasts kept are exactly those aimed at the group or at its faculty |
| BroadcastService.AimedAtGroupId | backend/app/services/broadcast_service.py:48-54 | the broadcasts kept are exactly those aimed at the group id or at the faculty of a group with that id |
| BroadcastService.ByAuthorRows | backend/app/services/broadcast_service.py:60-62 | the broadcasts kept are exactly the author's |
| BroadcastService.StudentGroupShape | backend/app/services/broadcast_service.py:23-33 | a user has a feed group exactly when the user exists, is a student, has a student record and that record's group exists |
| BroadcastService.ForUserContents | backend/app/services/broadcast_service.py:18-43 | a user without a feed group gets nothing; otherwise exactly the broadcasts aimed at the group or its faculty, each as often as stored, newest first |
| BroadcastService.ForGroupContents | backend/app/services/broadcast_service.py:46-55 | the group feed holds exactly the broadcasts aimed at the group or at the faculty of a group with that id, each as often as stored, newest first |
| BroadcastService.ByAuthorContents | backend/app/services/broadcast_service.py:58-62 | the author's feed holds exactly their broadcasts, each as often as stored, newest first |
| BroadcastService.StudentFeedIsGroupFeed | backend/app/services/broadcast_service.py:18-55 | with group ids unique, a student's own feed equals the feed of their group |
| BroadcastService.CreateSpec | backend/app/services/broadcast_service.py:65-86 | a broadcast is created exactly when the author is a staff member or administrator and a group or faculty is named; a non-author is refused first; the new row carries the author, targets, title, message and time |
| BroadcastService.CreatedReachesTargets | backend/app/services/broadcast_service.py:36-41 | a new broadcast appears in the feed of every group it names and of every group of the faculty it names |
| BroadcastService.BroadcastStore.constructor | backend/app/services/broadcast_service.py:76-86 | a new store holds the given broadcasts |
| BroadcastService.BroadcastStore.Create | backend/app/services/broadcast_service.py:65-86 | the result is CreateSpec's, and the stored broadcasts grow by the new row exactly when it is accepted |
| BroadcastEndpoints.AuthorName | backend/app/api/v1/endpoints/broadcasts.py:54-55 | the author's name is present exactly when a user with the author id exists, and is that user's name |
| BroadcastEndpoints.GroupName | backend/app/api/v1/endpoints/broadcasts.py:56-57 | the group name is present exactly when the broadcast names an existing group, and is its name |
| BroadcastEndpoints.FacultyTitle | backend/app/api/v1/endpoints/broadcasts.py:58-59 | the faculty title is present exactly when the broadcast names an existing faculty, and is its title |
| BroadcastEndpoints.Render | backend/app/api/v1/endpoints/broadcasts.py:53-60 | the rendering keeps the broadcast and adds the author's name, the group's name and the faculty's title, each present exactly when the related row exists |
| BroadcastEndpoints.RenderAsWritten | backend/app/api/v1/endpoints/broadcasts.py:58-59 | as written the rendering fails exactly when the targeted faculty exists, since the faculty row has no name; otherwise it is Render's |
| BroadcastEndpoints.FacultyBroadcastFailsAsWritten | backend/app/api/v1/endpoints/broadcasts.py:58-59 | a broadcast to an existing faculty cannot be shown as written, while the intended rendering names the faculty |
| BroadcastEndpoints.FacultyBroadcastWitness | backend/app/api/v1/endpoints/broadcasts.py:58-59 | one faculty and a broadcast to it: the written rendering fails, the intended one shows the faculty's title |
| BroadcastEndpoints.RenderList | backend/app/api/v1/endpoints/broadcasts.py:51-61 | as written the loop fails, with the missing-name error, exactly when some broadcast targets an existing faculty; otherwise one view per broadcast, in order, each Render's |
| BroadcastEndpoints.FeedWithoutGroup | backend/app/api/v1/endpoints/broadcasts.py:44-49 | without a group filter staff and administrators get nothing, and a student only broadcasts aimed at their group or its faculty |
| BroadcastEndpoints.GetBroadcasts | backend/app/api/v1/endpoints/broadcasts.py:31-61 | as written a 500 when the selected feed holds a broadcast to an existing faculty; otherwise 200 with every broadcast of the feed rendered, in feed order |
| BroadcastEndpoints.GetMyBroadcasts | backend/app/api/v1/endpoints/broadcasts.py:64-87 | a student is refused with 403; for staff and administrators, as written, a 500 when one of their broadcasts targets an existing faculty, else 200 with their own broadcasts rendered, newest first |
| BroadcastEndpoints.GetBroadcastDetails | backend/app/api/v1/endpoints/broadcasts.py:90-108 | 404 when no broadcast has the id; otherwise, as written, a 500 when the broadcast found targets an existing faculty, else 200 with it rendered |
| BroadcastEndpoints.TargetStudents | backend/app/api/v1/endpoints/broadcasts.py:164-168 | the students reached are those of the group when one is named, else of the faculty when one is named, else all |
| BroadcastEndpoints.JoinedMaxIds | backend/app/api/v1/endpoints/broadcasts.py:164-172 | the ids kept are exactly the non-zero messenger ids of the reached students' users |
| BroadcastEndpoints.Recipients | backend/app/api/v1/endpoints/broadcasts.py:159-180 | the recipients are distinct and are exactly the non-zero messenger ids of the reached students |
| BroadcastEndpoints.CollectRecipients | backend/app/api/v1/endpoints/broadcasts.py:159-180 | the collected ids are Recipients' |
| BroadcastEndpoints.FirstOccurrences | backend/app/api/v1/endpoints/broadcasts.py:173-180 | the loop keeps the first occurrence of each id, in order |
| BroadcastEndpoints.SenderId | backend/app/api/v1/endpoints/broadcasts.py:147-149 | the sender is the author's messenger id when it is positive, else the configured default |
| BroadcastEndpoints.FormatShape | backend/app/api/v1/endpoints/broadcasts.py:183-195 | with a subject or a body, the text is the header, the trimmed subject line and the trimmed body after a blank line, with nothing trimmed from its ends |
| BroadcastEndpoints.PushOutcome | backend/app/api/v1/endpoints/broadcasts.py:136-156 | a broadcast is pushed exactly when some recipient has a positive id and the bot URL is set; the push carries the formatted text, the sender and exactly the positive recipient ids |
| BroadcastEndpoints.PushBroadcast | backend/app/api/v1/endpoints/broadcasts.py:136-156 | the push built is PushFor's |
| BroadcastEndpoints.CreateBroadcastEndpoint | backend/app/api/v1/endpoints/broadcasts.py:111-133 | a refused broadcast is a 400 with the service's message, stores nothing and pushes nothing; an accepted one is stored and pushed, then answered, as written, with 500 when it targets an existing faculty, else with 201 and its rendering |
| BotNotify.Normalized | backend/app/services/bot_notify_service.py:61-70 | the normalised ids are distinct and are exactly the positive ids given |
| BotNotify.NormalizeIds | backend/app/services/bot_notify_service.py:61-70 | the loop computes Normalized |
| BotNotify.NormalizeStep | backend/app/services/bot_notify_service.py:64-69 | one input step skips a non-positive or already seen id and keeps any other |
| BotNotify.NormalizedIdempotent | backend/app/services/bot_notify_service.py:61-70 | normalising twice is normalising once |
| BotNotify.NormalizedKeepsOrder | backend/app/services/bot_notify_service.py:61-70 | distinct positive ids are kept as they are, in order |
| BotNotify.BaseUrl | backend/app/services/bot_notify_service.py:15-21 | a blank setting is an error; otherwise the trimmed setting less one trailing slash |
| BotNotify.Headers | backend/app/services/bot_notify_service.py:24-28 | no headers exactly for a blank token, else the bearer authorization of the trimmed token |
| BotNotify.PostTo | backend/app/services/bot_notify_service.py:73-76 | a request fails exactly when the base URL is blank; otherwise it goes to the base URL plus the path with the body and headers |
| BotNotify.NotifyBulkOutcome | backend/app/services/bot_notify_service.py:36-48 | refused when no id is positive or the URL is blank; otherwise the trimmed text, the sender and the normalised ids go to /notify/bulk and their count is returned |
| BotNotify.PathsCarryId | backend/app/services/bot_notify_service.py:31-58 | each single-user path is its fixed prefix followed by the id, which reads back from it |
| BotNotify.PathsDistinct | backend/app/services/bot_notify_service.py:31-58 | different users are notified on different paths, for the message, tuition and ready-document notices alike |
| MenuService.MenuOfRole | backend/app/services/menu_service.py:5-186 | each role of the system gets its own menu |
| MenuService.OtherRoleEmpty | backend/app/services/menu_service.py:186 | a value that names no role gets an empty menu |
| MenuService.DocumentsTree | backend/app/services/menu_service.py:69-92 | the documents section holds my requests, approval and vacation |
| MenuService.AdminPanelTree | backend/app/services/menu_service.py:144-167 | the admin panel holds users, events and library management |
| MenuService.StudentIds | backend/app/services/menu_service.py:23-58 | the student menu's items, children included, in order |
| MenuService.StudentRoutes | backend/app/services/menu_service.py:23-58 | the student menu's routes |
| MenuService.StaffIds | backend/app/services/menu_service.py:60-108 | the staff menu's items, children included, in order |
| MenuService.StaffRoutes | backend/app/services/menu_service.py:60-108 | the staff menu's routes |
| MenuService.AdminIds | backend/app/services/menu_service.py:110-183 | the administrator menu's items, children included, in order |
| MenuService.AdminRoutes | backend/app/services/menu_service.py:110-183 | the administrator menu's routes |
| MenuService.AdminExtendsStaff | backend/app/services/menu_service.py:60-183 | the administrator menu is the staff menu with the admin panel before the profile section |
| MenuService.StudentShows | backend/app/services/menu_service.py:23-58 | the student menu's ids are distinct and its routes fit the role |
| MenuService.StaffShows | backend/app/services/menu_service.py:60-108 | the staff menu's ids are distinct and its routes fit the role |
| MenuService.AdminDistinct | backend/app/services/menu_service.py:110-183 | the administrator menu's ids are distinct |
| MenuService.AdminFits | backend/app/services/menu_service.py:110-183 | the administrator menu's routes fit the role |
| MenuService.MenuByRole | backend/app/services/menu_service.py:5-186 | no menu repeats an id; only students see the library, only staff and administrators the approval page, only administrators the user list; everyone sees help |
| AppBot.NormalizeCommandShape | max_bot/internal/appbot/service.go:446-450 | the normalised name is the trimmed name, lower-cased, with one leading slash taken off, and has no upper-case letter left |
| AppBot.NormalizeSlashWord | max_bot/internal/appbot/service.go:446-450 | a slash-prefixed word between whitespace normalises to the word, lower-cased |
| AppBot.NormalizePlain | max_bot/internal/appbot/service_test.go:21-23 | the empty name and "help" are left as they are |
| AppBot.NormalizePadded | max_bot/internal/appbot/service_test.go:22 | "   /Ping  " normalises to "ping" |
| AppBot.NormalizeStart | max_bot/internal/appbot/service_test.go:24 | "/START" normalises to "start" |
| AppBot.SlashNormalized | max_bot/internal/appbot/service.go:446-450 | typing "/" before a normalised name reaches that name again |
| AppBot.MessageCommand | max_bot/internal/appbot/message_context.go:55-67 | a command is read only from a text that starts with "/" |
| AppBot.MessageArgs | max_bot/internal/appbot/message_context.go:70-77 | no arguments when the text has at most one field, else exactly the fields after the first |
| AppBot.CommandAndArgs | max_bot/internal/appbot/message_context.go:50-77 | a command word and arguments separated by single spaces give the normalised command and exactly those arguments |
| AppBot.CommandOfFields | max_bot/internal/appbot/message_context.go:55-67 | a trimmed line starting with "/" has its normalised first field as the command |
| AppBot.PingExample | max_bot/internal/appbot/service_test.go:36-50 | "/Ping user1 user2" has the command "ping" and the arguments "user1" and "user2" |
| AppBot.CloneParams | max_bot/internal/appbot/service.go:473-483 | an empty or missing map gives none, any other a copy with the same entries |
| AppBot.ClonePayload | max_bot/internal/appbot/service.go:485-492 | an empty or missing payload gives none, any other a copy with the same bytes |
| AppBot.CloneStateIdempotent | max_bot/internal/appbot/service.go:226-252 | copying a copy changes nothing, and the step is kept |
| AppBot.SessionRoundTrip | max_bot/internal/appbot/service.go:212-253 | reading back a stored state gives its copy, or nothing for user 0 and for an empty step; every other user's state is untouched |
| AppBot.StoreKeepsValid | max_bot/internal/appbot/service.go:218-237 | storing and clearing keep every stored state a normalised copy with a non-empty step |
| AppBot.Register | max_bot/internal/appbot/service.go:105-122 | a name that normalises to nothing or a missing handler changes nothing; otherwise the name gets the new entry and every other name keeps its own |
| AppBot.RegisterValid | max_bot/internal/appbot/service.go:105-122 | registering keeps the order free of repeats and in step with the table, and a known name keeps its place |
| AppBot.RegisterAllOrder | max_bot/internal/appbot/service.go:114-116 | after any run of registrations the order holds each accepted name once, where it was first registered |
| AppBot.RegistryFromScratch | max_bot/internal/appbot/service.go:84-122 | starting empty, the order is the first-occurrence deduplication of the accepted names |
| AppBot.Listing | max_bot/internal/appbot/service.go:172-185 | one entry per name of the order, in order, with its current description |
| AppBot.RunFallbacksPrefix | max_bot/internal/appbot/service.go:434-441 | the fallbacks that ran are a prefix of the list, and all but the last of them succeeded |
| AppBot.RunFallbacksResult | max_bot/internal/appbot/service.go:434-443 | the loop succeeds exactly when every handler succeeds, and then every handler ran; otherwise it fails with the error of the last handler it ran |
| AppBot.DispatchPriority | max_bot/internal/appbot/service.go:392-444 | an active session takes the message and nothing else runs; otherwise a registered command takes it alone; a plain text runs the fallbacks |
| AppBot.DispatchFailsLast | max_bot/internal/appbot/service.go:420-441 | a dispatch that fails ran at least one handler, and the last one failed |
| AppBot.SendText | max_bot/internal/appbot/service.go:452-471 | nothing is sent exactly for an empty text |
| AppBot.NotifyUser | max_bot/internal/appbot/service.go:256-265 | a non-positive user is refused, then a blank text; otherwise the trimmed, non-empty text goes to the user with no chat |
| AppBot.NotifyTextTrimmed | max_bot/internal/appbot/service.go:257 | a text a user is notified with has no whitespace at either end |
| AppBot.Service.constructor | max_bot/internal/appbot/service.go:84-102 | a new service has every table empty |
| AppBot.Service.RegisterCommand | max_bot/internal/appbot/service.go:105-122 | the command table and order become Register's, the other tables unchanged |
| AppBot.Service.RegisterMessageHandler | max_bot/internal/appbot/service.go:125-133 | a handler given is appended to the fallbacks, a missing one ignored; nothing else changes |
| AppBot.Service.RegisterSessionHandler | max_bot/internal/appbot/service.go:158-169 | an empty step or a missing handler is ignored; otherwise the step's handler is set or replaced; nothing else changes |
| AppBot.Service.Commands | max_bot/internal/appbot/service.go:172-185 | the result is Listing of the registry |
| AppBot.Service.SetSessionState | max_bot/internal/appbot/service.go:212-231 | the sessions become StoreSession's, nothing else changes |
| AppBot.Service.ClearSessionState | max_bot/internal/appbot/service.go:234-238 | the user's session is removed, nothing else changes |
| AppBot.Service.GetSessionState | max_bot/internal/appbot/service.go:241-253 | the result is the stored state's copy, found exactly when the user has a session |
| AppBot.Service.HandleMessage | max_bot/internal/appbot/service.go:392-444 | the outcome is Dispatch on the service's tables and the message's command |
| AppBot.RunHandlers | max_bot/internal/appbot/service.go:434-443 | the loop computes RunFallbacks |
| HttpServer.ParseInt64 | max_bot/internal/httpserver/server.go:232 | a parse succeeds only for a decimal inside the signed 64-bit range, with its value, and fails for every other text |
| HttpServer.ParseUserID | max_bot/internal/httpserver/server.go:225-238 | "user id is required" exactly for an empty id part, "must be a positive integer" exactly for one that is not a decimal in 1..2^63-1, else that number |
| HttpServer.ParseRendered | max_bot/internal/httpserver/server.go:225-238 | a positive id written in decimal after the prefix, with or without a trailing slash, parses back to the id |
| HttpServer.IdPartOf | max_bot/internal/httpserver/server.go:226-227 | the id part is what follows the prefix, with the slashes at its ends removed |
| HttpServer.PathsRoundTrip | max_bot/internal/httpserver/server.go:91-147 | every path the backend builds for a user reads back as that user's id on its route |
| HttpServer.MissingIdRequired | max_bot/internal/httpserver/server.go:228-230 | a path that ends at the prefix names no user |
| HttpServer.LettersRefused | max_bot/internal/httpserver/server_test.go:78-89 | "/notify/abc" is refused as not a positive integer |
| HttpServer.HandleNotify | max_bot/internal/httpserver/server.go:91-115 | the notifier is called, once, with the id and the untrimmed text exactly when the id parses, the body decodes and the text is not blank; 200 when it succeeds, 500 when it fails |
| HttpServer.HandleNotifyReady | max_bot/internal/httpserver/server.go:117-131 | the notifier is called exactly when the id parses; 500 only for an error with a non-empty message |
| HttpServer.HandleNotifyTuition | max_bot/internal/httpserver/server.go:133-147 | the notifier is called exactly when the id parses; 500 for any error |
| HttpServer.BulkInvalid | max_bot/internal/httpserver/server.go:156-176 | a bulk request passes exactly with a non-blank text, a positive sender and a non-empty list of positive ids |
| HttpServer.SendAll | max_bot/internal/httpserver/server.go:184-194 | a delivery makes at most one call per id |
| HttpServer.SendAllSpec | max_bot/internal/httpserver/server.go:184-194 | the calls are the ids in order with the text; the delivery succeeds exactly when no id fails, and otherwise stops at the first id that fails |
| HttpServer.HandleNotifyBulk | max_bot/internal/httpserver/server.go:149-200 | the reply and calls are BulkSpec's |
| HttpServer.UniqueRecipients | max_bot/internal/httpserver/server.go:170-182 | the loop finds the first non-positive id, and otherwise keeps each id once in first-occurrence order |
| HttpServer.Deliver | max_bot/internal/httpserver/server.go:184-194 | the loop computes SendAll |
| HttpServer.BulkOutcome | max_bot/internal/httpserver/server.go:149-200 | a refused bulk request is a 400 that notifies nobody; an accepted one notifies each distinct id once, in order, with the trimmed text, answering 200 with their number when all succeed and 500 at the first failure |
| HttpServer.BulkDedupExample | max_bot/internal/httpserver/server_test.go:113-136 | ids [1, 2, 2] with " bulk message " reach 1 and 2 once each with "bulk message", and the reply counts 2 |
| HttpServer.BulkStopsAtFirstFailure | max_bot/internal/httpserver/server_test.go:170-184 | a notifier that always fails stops the delivery after the first recipient and answers 500 |
| HttpServer.BackendBulkAccepted | max_bot/internal/httpserver/server.go:149-200 | a bulk body the backend builds for a positive sender and a non-blank text is accepted as it is, and the bot notifies exactly the number of recipients the backend counted |
| HttpServer.BulkBodyOf | backend/app/services/bot_notify_service.py:36-48 | the backend's bulk body carries the trimmed text, the sender and the normalised ids, and reports their count |
| HttpServer.AuthSound | max_bot/internal/httpserver/server.go:247-265 | a request passes only with a bearer scheme, in any letter case, followed by the token |
| HttpServer.AuthAccepts | max_bot/internal/httpserver/server.go:247-265 | any spelling of the bearer scheme followed by the token passes |
| HttpServer.AuthSplit | max_bot/internal/httpserver/server.go:249-261 | a trimmed header of a bearer scheme and a rest passes exactly when the trimmed rest is the token |
| HttpServer.OpenServer | max_bot/internal/httpserver/server.go:240-245 | a server without a token lets every request through |
| HttpServer.BackendHeaderAccepted | max_bot/internal/httpserver/server.go:240-265 | the header the backend sends is accepted by a server configured with the same token |
| HttpServer.AuthExamples | max_bot/internal/httpserver/server_test.go:186-210 | a missing header, a wrong token and the right token are refused, refused and let through |
| HttpServer.RouteOf | max_bot/internal/httpserver/server.go:51-56 | only GET /healthz reaches the health route, and every other route is a POST under /notify/ |
| HttpServer.DeniedNotifiesNobody | max_bot/internal/httpserver/server.go:247-261 | an unauthenticated request to a notify route is a 401 that notifies nobody |
| HttpServer.CallsOnlyNamedUsers | max_bot/internal/httpserver/server.go:50-200 | the notifier is only ever called for ids taken from the request, and never by the health route |
| StdlogBridge.RunEndSpec | max_bot/internal/logger/stdlog_bridge.go:13 | the value run is made of characters other than `&`, `"` and whitespace, and stops at the end or at one of them |
| StdlogBridge.MatchEnd | max_bot/internal/logger/stdlog_bridge.go:13 | a match takes the key, "=" and at least one value character |
| StdlogBridge.IndexOfEquals | max_bot/internal/logger/stdlog_bridge.go:46 | the first "=" found lies inside the text |
| StdlogBridge.Write | max_bot/internal/logger/stdlog_bridge.go:33-42 | blank output is dropped; the rest is trimmed and redacted; the whole input counts as written |
| StdlogBridge.IndexOfEqualsAt | max_bot/internal/logger/stdlog_bridge.go:46 | the first "=" is found where none comes before it |
| StdlogBridge.KeyAtSpelled | max_bot/internal/logger/stdlog_bridge.go:13 | a key matches at a position exactly when the text there spells access_token in any letter case and is followed by "=" |
| StdlogBridge.KeyHasNoEquals | max_bot/internal/logger/stdlog_bridge.go:46-50 | no spelling of the key contains "=", so the split falls right after the key |
| StdlogBridge.ReplacementKeepsKey | max_bot/internal/logger/stdlog_bridge.go:45-51 | a match is replaced by its key, spelled as it was, "=" and the placeholder |
| StdlogBridge.RedactAtMatch | max_bot/internal/logger/stdlog_bridge.go:44-51 | at a match the key keeps its spelling, the value up to the next `&`, `"` or whitespace becomes the placeholder, and the scan goes on after it |
| StdlogBridge.CopyStep | max_bot/internal/logger/stdlog_bridge.go:45 | where no match starts, one character is copied |
| StdlogBridge.RedactSkip | max_bot/internal/logger/stdlog_bridge.go:45 | text in which no match starts is copied as it is |
| StdlogBridge.RedactNoMatch | max_bot/internal/logger/stdlog_bridge.go:45-51 | a text without a match is left as it is by the pattern |
| StdlogBridge.RedactFirstMatch | max_bot/internal/logger/stdlog_bridge.go:45-51 | at the first match, what comes before is kept, the key keeps its spelling and the value becomes the placeholder |
| StdlogBridge.RedactRest | max_bot/internal/logger/stdlog_bridge.go:45 | after the last match the rest of the text is kept |
| StdlogBridge.NoEqualsNoMatch | max_bot/internal/logger/stdlog_bridge.go:13 | a text without "=" has no match |
| StdlogBridge.CleanTextUnchanged | max_bot/internal/logger/stdlog_bridge.go:44-58 | a text with neither a match nor the token comes out unchanged |
| StdlogBridge.RedactParamAt | max_bot/internal/logger/stdlog_bridge_test.go:15-19 | a query parameter after a part without "=" keeps its key and loses its value, the scan going on after it |
| StdlogBridge.UpperCaseExample | max_bot/internal/logger/stdlog_bridge_test.go:25-29 | "ACCESS_TOKEN=f9LHsecret" becomes "ACCESS_TOKEN=<redacted>" |
| StdlogBridge.CleanExample | max_bot/internal/logger/stdlog_bridge_test.go:30-34 | "nothing to redact here" is left as it is |
| AppSchedule.ParseWeekdayPadded | max_bot/internal/app/schedule.go:216-219 | white space around a weekday name makes no difference |
| AppSchedule.LessAsymmetric | max_bot/internal/app/schedule.go:221-235 | no two lessons each come before the other |
| AppSchedule.LessAsymmetricAll | max_bot/internal/app/schedule.go:221-235 | the lesson comparison is asymmetric over all lessons |
| AppSchedule.LessCycle | max_bot/internal/app/schedule.go:221-235 | the comparison is not transitive once a weekday name does not parse: three lessons each come before the next, in a cycle |
| AppSchedule.SortSpec | max_bot/internal/app/schedule.go:221-235 | the sorted lessons are a permutation of the input |
| AppSchedule.SortOrdered | max_bot/internal/app/schedule.go:221-235 | after sorting no lesson is less than the one before it |
| AppSchedule.SortIdempotent | max_bot/internal/app/schedule.go:221-235 | sorting twice is sorting once |
| AppSchedule.SortLessons | max_bot/internal/app/schedule.go:221-235 | the array afterwards holds SortSpec of its old contents |
| AppSchedule.SortedCopy | max_bot/internal/app/schedule.go:306-307 | the copy is the input sorted |
| AppSchedule.FilterLessonsByDay | max_bot/internal/app/schedule.go:140-151 | the loop keeps the lessons DayLessons keeps |
| AppSchedule.DayLessonsExact | max_bot/internal/app/schedule.go:140-151 | a day's lessons are exactly the input lessons detected on that day, and there are none exactly when no lesson falls on it |
| AppSchedule.LimitLessons | max_bot/internal/app/schedule.go:302-312 | the result is LimitSpec's, the input left as it was |
| AppSchedule.LimitProps | max_bot/internal/app/schedule.go:302-312 | the first min(max, length) lessons of the sorted list, none when max is not positive: an ordered sub-multiset of the input |
| AppSchedule.SafeText | max_bot/internal/app/schedule.go:294-300 | the fallback for a blank value, else the trimmed, non-empty value |
| AppSchedule.TimeText | max_bot/internal/app/schedule.go:238-245 | the trimmed time, else "Пара #n" for a positive pair number, else "Время уточняется"; never empty |
| AppSchedule.ListingOf | max_bot/internal/app/schedule.go:94-97 | the builder loop writes Listing's numbered lines |
| AppSchedule.GroupLessons | max_bot/internal/app/schedule.go:69-77 | each weekday's bucket holds that day's lessons in input order, and the rest are those without a day |
| AppSchedule.WeekStep | max_bot/internal/app/schedule.go:86-99 | each day of the week order adds its section when it has lessons and nothing otherwise |
| AppSchedule.WriteSection | max_bot/internal/app/schedule.go:91-98 | one section is the day's title and its sorted lessons |
| AppSchedule.Week | max_bot/internal/app/schedule.go:60-111 | a fetch error is passed on; otherwise the text is WeekText of the lessons and the start of the week |
| AppSchedule.WriteDays | max_bot/internal/app/schedule.go:86-99 | the loop over the week order writes the sections of the days with lessons |
| AppSchedule.WeekOrderIndex | max_bot/internal/app/schedule.go:206-214 | the week order lists each weekday once, Monday first |
| AppSchedule.WeekSectionsSound | max_bot/internal/app/schedule.go:86-99 | every section shows a day with lessons, with all of that day's lessons sorted |
| AppSchedule.WeekSectionsOrdered | max_bot/internal/app/schedule.go:86-99 | sections follow the week order, Monday first, no day twice |
| AppSchedule.WeekSectionsComplete | max_bot/internal/app/schedule.go:86-99 | every day with lessons has its section |
| AppSchedule.WeekCovers | max_bot/internal/app/schedule.go:69-108 | every fetched lesson is in its day's section or among the lessons without a day |
| AppSchedule.StartOfWeekSpec | max_bot/internal/app/schedule.go:122-130 | the start of the week is a Monday midnight at most six days back, the latest such Monday; a Sunday goes back six days |
| AppSchedule.SameWeek | max_bot/internal/app/schedule.go:122-130 | every day of a week has the same start |
| AppSchedule.Today | max_bot/internal/app/schedule.go:28-58 | a fetch error is passed on; otherwise the text is TodayText of the lessons and today's weekday |
| AppSchedule.TodayEmptyIff | max_bot/internal/app/schedule.go:35-41 | today says there are no lessons exactly when the week has none |
| AppSchedule.TodayFallback | max_bot/internal/app/schedule.go:36-38 | when no lesson falls on today, the first four lessons of the sorted week are shown, already sorted |
| AppSchedule.TodayOnDay | max_bot/internal/app/schedule.go:35 | otherwise exactly today's lessons are shown |
| AppMenu.RowCallbacksAppend | max_bot/internal/app/menu.go:96-101 | a row's callbacks are those of its parts, in order |
| AppMenu.RowCallbacksOne | max_bot/internal/app/menu.go:97-100 | one button is kept exactly when it has both text and payload |
| AppMenu.RowCallbacksExact | max_bot/internal/app/menu.go:96-101 | every callback comes from a button of the row with text and payload, each such button gives one, and none has an empty text or payload |
| AppMenu.RowCallbacksNone | max_bot/internal/app/menu.go:97-99 | a row without a complete button gives no callbacks |
| AppMenu.KeyboardRowsAppend | max_bot/internal/app/menu.go:91-102 | the keyboard of a menu is that of its parts, in order |
| AppMenu.KeyboardRowsOne | max_bot/internal/app/menu.go:92-95 | an empty row adds nothing; any other row adds one keyboard row, even an empty one |
| AppMenu.SkippedButtonsKeepRow | max_bot/internal/app/menu.go:92-101 | a non-empty row of incomplete buttons still gives an empty keyboard row |
| AppMenu.KeyboardRowCount | max_bot/internal/app/menu.go:91-102 | the keyboard has one row per non-empty menu row |
| AppMenu.MenuRegistry.constructor | max_bot/internal/app/menu.go:33-38 | a new registry holds no menus |
| AppMenu.MenuRegistry.Register | max_bot/internal/app/menu.go:41-46 | a menu without an id is ignored; otherwise it is stored under its id, replacing any earlier one |
| AppMenu.MenuRegistry.RenderMenu | max_bot/internal/app/menu.go:80-105 | the result is RenderSpec's for the stored menus |
| AppMenu.AddRow | max_bot/internal/app/menu.go:95-101 | the inner loop gives the row's callbacks |
| AppMenu.RenderRegistered | max_bot/internal/app/menu.go:41-105 | a registered menu renders as its own title and keyboard, or the missing-builder error |
| AppMenu.RenderFails | max_bot/internal/app/menu.go:80-89 | rendering fails exactly for an unknown menu, which is named in the error, or a missing builder |
| AppMenu.SendSpec | max_bot/internal/app/menu.go:49-66 | sending fails exactly when rendering does; otherwise the message has the menu's title and keyboard, and a user and a chat exactly when they are not zero |
| AppRegistration.NewSession | max_bot/internal/app/registration.go:215-220 | a new session is at the full-name step for the role, with nothing entered or chosen |
| AppRegistration.SelectOutcome | max_bot/internal/app/registration.go:245-265 | a choice is always one of the options; "no options", "no answer" and "not found" come exactly from no options, a blank answer, or an answer that is neither an option's number nor names one |
| AppRegistration.SelectByNumber | max_bot/internal/app/registration.go:253-258 | the number k+1 picks the k-th option, whatever the options are called |
| AppRegistration.SelectByName | max_bot/internal/app/registration.go:259-263 | an answer that is not an option's number picks the first option whose id or title it spells, ignoring case |
| AppRegistration.SelectTrimmed | max_bot/internal/app/registration.go:249 | white space around the answer makes no difference |
| AppRegistration.FormatOptions | max_bot/internal/app/registration.go:267-282 | the builder loop writes OptionsText |
| AppRegistration.OptionsTextEmpty | max_bot/internal/app/registration.go:267-270 | the list is empty exactly when there are no options |
| AppRegistration.OptionLineFlat | max_bot/internal/app/registration.go:273-276 | an option line holds no newline when its title and subtitle hold none |
| AppRegistration.OptionsTextLines | max_bot/internal/app/registration.go:267-282 | splitting the list on newlines gives one line per option, in order |
| AppRegistration.Fetched | max_bot/internal/app/registration.go:31-104 | a catalogue list offers options exactly when it is fetched and non-empty, one option per entry |
| AppRegistration.LoadOutcome | max_bot/internal/app/registration.go:25-109 | options are offered only at the four catalogue steps and never empty; an earlier choice left out is an error; any other step clears the options |
| AppRegistration.UniversityOptions | max_bot/internal/app/registration.go:30-46 | the university options carry each university's id, name and city, in catalogue order |
| AppRegistration.RegisterAccepts | max_bot/internal/app/registration.go:111-165 | a request is sent exactly for a complete session, carrying the user, role, name, the university's city and id, and the role's own ids with the trimmed card or tab number |
| AppRegistration.RegisterGuardOrder | max_bot/internal/app/registration.go:111-162 | the first failing check decides the error: the identity backend, the user id, the name, the university, and a role other than student or staff last |
| AppRegistration.RegistrationSession.constructor | max_bot/internal/app/registration.go:222-231 | a session restored from its payload holds the stored data |
| AppRegistration.RegistrationSession.SetOptions | max_bot/internal/app/registration.go:241-243 | a copy of the options replaces the current ones, nothing else changes |
| AppRegistration.RegistrationSession.ClearOptions | max_bot/internal/app/registration.go:237-239 | the options are removed, nothing else changes |
| AppRegistration.RegistrationSession.SelectOption | max_bot/internal/app/registration.go:245-265 | the result is SelectSpec's on the session's options |
| AppRegistration.RegistrationSession.LoadOptions | max_bot/internal/app/registration.go:25-109 | an error leaves the session as it was; an offer replaces the options; any other step clears them |
| AppRegistration.Fetch | max_bot/internal/app/registration.go:31-45 | one step's fetch gives Fetched's outcome |
| AppApplications.FixedFormsShape | max_bot/internal/app/applications.go:253-296 | four forms: the two certificates ask nothing; leave and transfer ask for a required file, then a required text |
| AppApplications.CurrentField | max_bot/internal/app/applications.go:150-155 | no current field exactly outside the form, else the field at the index |
| AppApplications.CompletedNoField | max_bot/internal/app/applications.go:150-155 | a completed form has no current field, and a form with no current field and a non-negative index is completed |
| AppApplications.PrepareSessionStarts | max_bot/internal/app/applications.go:80-96 | an unknown type is an error naming it; otherwise the session sits at the first field of a copy of the form with nothing answered, complete from the start exactly when the form has no fields |
| AppApplications.RecordedAdvances | max_bot/internal/app/applications.go:192-200 | recording stores the answer under the current field's name and advances by one; a completed form or a negative index is left as it is |
| AppApplications.AnsweringCompletes | max_bot/internal/app/applications.go:192-215 | answering every remaining field completes the form, at its end |
| AppApplications.ApplicationSession.constructor | max_bot/internal/app/applications.go:129-142 | a session restored from its payload holds the stored data |
| AppApplications.ApplicationSession.RecordAnswer | max_bot/internal/app/applications.go:192-211 | the session becomes Recorded's |
| AppApplications.PluralizePeriodic | max_bot/internal/app/applications.go:232-240 | the word depends only on the last two digits |
| AppApplications.PluralizeExamples | max_bot/internal/app/applications.go:232-240 | 1 and 21 give "вопрос", 2 and 22 "вопроса", 0, 5, 11, 12 and 111 "вопросов" |
| AppApplications.PluralizeNegative | max_bot/internal/app/applications.go:232-240 | a negative count follows Go's truncating remainder, so -8 and -1 give "вопросов" |
| AppApplications.RenderFieldPromptParts | max_bot/internal/app/applications.go:217-230 | the prompt starts with the step header and the label; a required mark, the file hint and the placeholder hint follow exactly when the field asks for them |
| AppApplications.PromptShape | max_bot/internal/app/applications.go:161-182 | the prompt is empty exactly when there is no current field; the first prompt is the intro followed by the field prompt |
| AppApplications.ReminderShape | max_bot/internal/app/applications.go:184-190 | without a current field the generic reminder; otherwise the field's caption and then its prompt |
| AppApplications.SubmitSpec | max_bot/internal/app/applications.go:98-106 | submission fails exactly without a backend; otherwise the user, role, type and answers are handed to it |
| BackendApplications.MapBackendRoleOutcome | max_bot/internal/backend/applications.go:226-236 | a mapped role is always student or teacher; the error quotes the value as it came |
| BackendApplications.MapBackendRoleStudent | max_bot/internal/backend/applications.go:226-236 | a value is the student role exactly when, trimmed, it equals "student" up to letter case |
| BackendApplications.MapBackendRoleTrimmed | max_bot/internal/backend/applications.go:226-236 | whitespace around the value changes neither whether it maps nor what it maps to |
| BackendApplications.MapBackendRoleAdmin | max_bot/internal/backend/applications.go:226-236 | "Admin" files as a teacher |
| BackendApplications.MapBackendRoleStaff | max_bot/internal/backend/applications.go:226-236 | "STAFF" files as a teacher |
| BackendApplications.MapBackendRoleUnknown | max_bot/internal/backend/applications.go:226-236 | a role the bot does not list is an error |
| BackendApplications.RequestTypesShape | max_bot/internal/backend/applications.go:374-379 | exactly the four application types have a backend request type, with the four names of the table |
| BackendApplications.NamedFiles | max_bot/internal/backend/applications.go:475-492 | the kept files are exactly the decoded attachments with a file name, never more than the items |
| BackendApplications.DecodeAttachments | max_bot/internal/backend/applications.go:463-495 | every decoded file has a name, and blank data decodes to nothing |
| BackendApplications.FormatFieldValueCases | max_bot/internal/backend/applications.go:355-372 | a blank value reads "не указано", a plain value is shown trimmed, a "[" list shows its files or the files-in-MAX note; the rendering is never empty |
| BackendApplications.Title | max_bot/internal/backend/applications.go:239-242 | the type's title from the table, or the type itself when it has none |
| BackendApplications.Label | max_bot/internal/backend/applications.go:252-255 | the field's label from the table, or the key itself when it has none |
| BackendApplications.BuildRequestContent | max_bot/internal/backend/applications.go:238-266 | the loop that collects, sorts and writes the keys produces exactly the content the specification function defines |
| BackendApplications.ContentOrderFree | max_bot/internal/backend/applications.go:244-250 | the content is the same whatever order the map's keys are visited in |
| BackendApplications.ContentKeys | max_bot/internal/backend/applications.go:244-250 | the fields are written in increasing key order, each key of the payload once and no other |
| BackendApplications.ContentShape | max_bot/internal/backend/applications.go:238-266 | an empty form is the header and the no-data sentence; any other starts with the header and the fields heading |
| BackendApplications.SubmitSpec | max_bot/internal/backend/applications.go:109-124 | the request is posted exactly when the login succeeds and the type has a backend request type; an unknown type fails with its quoted name; the posted body is that type with the built content |
| BackendApplications.StubResolveRole | max_bot/internal/backend/applications.go:408-413 | students for even user ids, teachers for odd ones |
| BackendApplications.StubRoleNegative | max_bot/internal/backend/applications.go:408-413 | negative ids keep that parity although Go's remainder of a negative odd id is -1 |
| BackendApplications.ExtractKeeps | max_bot/internal/backend/applications.go:447-461 | exactly the fields holding a "[" list with at least one named file are kept, each with its own non-empty list of named files |
| BackendApplications.ExtractAttachments | max_bot/internal/backend/applications.go:447-461 | the loop over the payload yields exactly the extracted map the specification defines |
| BackendApplications.StubApplications.constructor | max_bot/internal/backend/applications.go:401-406 | the stub starts with no submissions |
| BackendApplications.StubApplications.SubmitApplication | max_bot/internal/backend/applications.go:415-431 | a submission with attachments replaces the user's stored files, which StoredFiles then returns; one without leaves every user's files as they were |
| BackendApplications.StubApplications.StoredFiles | max_bot/internal/backend/applications.go:433-445 | files are returned exactly for a user who has a stored submission |
| AppHandlers.ApplicationActionsConfigured | max_bot/internal/app/handlers.go:51-68 | the four application buttons each open a configured form; the work certificate is filed as a teacher, the other three as a student |
| AppHandlers.EnsureRegistered | max_bot/internal/app/handlers.go:914-930 | a user passes exactly when there is no applications coordinator or the backend resolves their role; an unknown user is stopped with the intro's send error, any other lookup error is passed on |
| AppHandlers.CallbackGate | max_bot/internal/app/handlers.go:271-288 | a callback goes on exactly when its payload needs no registration or the user passes the check; the service-unavailable notice is shown exactly when the check fails with a non-empty error |
| AppHandlers.Submitted | max_bot/internal/app/applications.go:98-106 | without a backend the submission fails with the not-configured error; otherwise the answer is the backend's to the session's role, type and answers |
| AppHandlers.CertificatesSubmittedAtOnce | max_bot/internal/app/handlers.go:369-382 | a certificate button submits its empty form at once; the reply is the success message for the form's title exactly when the backend accepts it |
| AppHandlers.OtherFormsStartFilling | max_bot/internal/app/handlers.go:383-400 | the leave and transfer buttons start a student session at the first field, a file field, with nothing answered, and store the form type and role as parameters |
| AppHandlers.OpenApplication | max_bot/internal/app/handlers.go:362-400 | the handler's outcome is the specified start, and the bot's sessions change only when a form is started, to the filling session for that user |
| AppHandlers.HandleFilling | max_bot/internal/app/handlers.go:515-598 | the handler's outcome is the specified step on the restored session; the bot's sessions take its effect, with a copy of the received parameters |
| AppHandlers.FinishAnswer | max_bot/internal/app/handlers.go:551-597 | after an answer a complete form is submitted and the session cleared; an incomplete one is saved and its next field asked |
| AppHandlers.FillingWithoutField | max_bot/internal/app/handlers.go:524-528 | a session with no current field ends with the already-filled reply, whatever the message |
| AppHandlers.FileFieldNeedsAttachments | max_bot/internal/app/handlers.go:531-541 | a file field keeps its step exactly when the message brings no attachments that encode |
| AppHandlers.RequiredFieldReminds | max_bot/internal/app/handlers.go:543-548 | a text field keeps its step exactly when it is required and the answer is blank, and then the reminder is sent |
| AppHandlers.AnswerAdvances | max_bot/internal/app/handlers.go:542-597 | an accepted answer is stored under the field's name and the form moves on by one; the session ends exactly when that was the last field |
| AppHandlers.LastAnswerSubmits | max_bot/internal/app/handlers.go:551-575 | answering the last field submits the earlier answers with this one; the reply is the success message, the registration notice for an unknown user, or the failure text |
| AppHandlers.HandleRegistration | max_bot/internal/app/handlers.go:600-725 | the handler's outcome is the specified registration step on the restored session, with the cancel test as written, so only "/cancel" cancels; the bot's sessions take its effect |
| AppHandlers.AnswerFullName | max_bot/internal/app/handlers.go:620-633 | the full-name step's outcome is the specified one, and the sessions take its effect |
| AppHandlers.AnswerChoice | max_bot/internal/app/handlers.go:634-699 | an answer that picks no option asks again with the hint; a picked option is stored and the next step prepared |
| AppHandlers.StoreChoice | max_bot/internal/app/handlers.go:641-699 | a picked option is stored as the specification says, and the sessions take the result |
| AppHandlers.AnswerNumber | max_bot/internal/app/handlers.go:685-705 | the card or tab-number step never saves the session: it keeps it on a blank answer and ends it otherwise |
| AppHandlers.LoadStep | max_bot/internal/app/handlers.go:626-633 | a failed option load ends the session with the error text; a successful one saves the session with the loaded options |
| AppHandlers.SaveStep | max_bot/internal/app/handlers.go:711-724 | the session is saved and the next prompt sent with the session's options |
| AppHandlers.RegistrationMovesForward | max_bot/internal/app/handlers.go:619-709 | a saved session has moved exactly one step along the role's path, and its role is unchanged |
| AppHandlers.RegistrationCancel | max_bot/internal/app/handlers.go:609-614 | as written, an answer ends the session as cancelled at any step exactly when it trims and lower-cases to "/cancel" |
| AppHandlers.RegistrationFullName | max_bot/internal/app/handlers.go:620-633 | for an answer other than "/cancel": a blank full name asks again; a non-blank one is stored trimmed and the university step begins with its non-empty options, unless the load fails |
| AppHandlers.RegistrationUnmatchedOption | max_bot/internal/app/handlers.go:634-638 | for an answer other than "/cancel": at a list step an answer that picks no option asks again and changes nothing |
| AppHandlers.RegistrationFacultyBranch | max_bot/internal/app/handlers.go:649-675 | for an answer other than "/cancel": the chosen faculty leads students to the group step and staff to the kafedra step; the session ends exactly when that step's options fail to load |
| AppHandlers.RegistrationClearsOptions | max_bot/internal/app/handlers.go:676-699 | for an answer other than "/cancel": choosing the group or the kafedra moves to the card or the tab number with the options cleared |
| AppHandlers.RegistrationCompletes | max_bot/internal/app/handlers.go:685-705 | for an answer other than "/cancel": a blank card or tab number asks again; a non-blank one completes the registration with the trimmed answer and ends the session |
| AppHandlers.CompletedStudentRequest | max_bot/internal/app/handlers.go:685-690 | for an answer other than "/cancel": a student with every earlier choice made sends a registration request carrying the trimmed card and the chosen group |
| AppHandlers.RegistrationUnknownStep | max_bot/internal/app/handlers.go:706-709 | for an answer other than "/cancel": an unknown step ends the session |
| AppHandlers.CancelWordUnreachable | max_bot/internal/app/handlers.go:609-614 | as written, no lower-cased text equals the mis-encoded word, so only "/cancel" cancels |
| AppHandlers.CancelWordIgnoredAsWritten | max_bot/internal/app/handlers.go:609-614 | as written, "отмена" and "Отмена" do not cancel |
| AppHandlers.CancelWordTakenAsFullName | max_bot/internal/app/handlers.go:609-633 | as written, "отмена" at the full-name step does not cancel: it is stored as the full name and the university step begins, unless the load fails |
| AppHandlers.CancelWordAccepted | max_bot/internal/app/handlers.go:609-614 | as intended, "отмена", "Отмена" and "/cancel" all cancel |
| AppHandlers.CapitalCancelAccepted | max_bot/internal/app/handlers.go:609-614 | the capitalised word lower-cases to the cancel word |
| MiniLib.FormatDateTime | Max-mini-app-main/src/lib/index.ts:35-51 | an absent or empty value and an invalid date render as the empty text; a valid one as the formatter renders it |
| MiniLib.StripTrailingSlash | Max-mini-app-main/src/lib/index.ts:8-10 | a text ending in "/" is the result with that one slash added back; any other text is kept as it is |
| MiniLib.StrippedHasNoSlash | Max-mini-app-main/src/lib/index.ts:8-10 | unless the text ends in two slashes, the result has no trailing slash |
| MiniLib.StripApiSuffix | Max-mini-app-main/src/lib/index.ts:24 | a base ending in "/api/v1" is the result with that suffix added back; any other base is kept |
| MiniLib.ApiUrlEndsWithPath | Max-mini-app-main/src/lib/index.ts:21-29 | the URL built for a path ends with that path |
| MiniLib.StaticFromSiteRoot | Max-mini-app-main/src/lib/index.ts:23-26 | a "/static/" path is joined to the site root: the base without "/api/v1" and its trailing slash |
| MiniLib.ApiUrlOneSlash | Max-mini-app-main/src/lib/index.ts:28-29 | any other path is joined to the base by exactly one slash |
| MiniLib.AssetUrl | Max-mini-app-main/src/lib/index.ts:12-30 | no path gives the fallback image, an http(s) or data: URL is used as it is, any other path is joined to the API base; the path is always the tail of the result |
| MiniDocuments.DocumentUrl | Max-mini-app-main/src/pages/RequestDetailPage/lib/getDocumentUrl.ts:10-26 | an empty path gives the empty link, a lower-case http(s) URL is used as it is, any other path is joined to the API base; the path is always the tail of the link |
| MiniDocuments.DocumentUrlIsAssetUrl | Max-mini-app-main/src/pages/RequestDetailPage/lib/getDocumentUrl.ts:10-26 | apart from data: URLs and the case of the scheme, the document link equals the asset URL for every non-empty path |
| MiniRole.UserRole | Max-mini-app-main/src/lib/getUserRole.ts:8-25 | no role gives the default; otherwise admin exactly when the lower-cased role contains "admin", teacher exactly when it does not but contains "teacher" or "staff" |
| MiniRole.RoleIgnoresCase | Max-mini-app-main/src/lib/getUserRole.ts:16 | the letter case of the reported role does not change the UI role |
| MiniRole.StudentRole | Max-mini-app-main/src/lib/getUserRole.ts:16-23 | "student" gives the student UI |
| MiniRole.StaffRole | Max-mini-app-main/src/lib/getUserRole.ts:20-22 | "staff" gives the teacher UI |
| MiniRole.AdminRole | Max-mini-app-main/src/lib/getUserRole.ts:17-19 | "admin" gives the admin UI |
| MiniRequests.MapStatus | Max-mini-app-main/src/pages/ApprovalPage/lib/transformRequest.ts:20-26 | a missing status is pending; otherwise the status is one of the other three exactly when its lower-cased name is in the table, and then it is the status of that name |
| MiniRequests.StatusRoundTrip | Max-mini-app-main/src/pages/ApprovalPage/lib/transformRequest.ts:13-26 | every status read back from its own name is that status |
| MiniRequests.StatusIgnoresCase | Max-mini-app-main/src/pages/ApprovalPage/lib/transformRequest.ts:24 | the letter case of the status does not matter |
| MiniRequests.PadStart | Max-mini-app-main/src/pages/ApprovalPage/lib/transformRequest.ts:31 | the padded text is at least the width long, ends with the text and is filled with the filler before it |
| MiniRequests.ZerosValue | Max-mini-app-main/src/pages/ApprovalPage/lib/transformRequest.ts:31 | a run of zeros is a number with value zero |
| MiniRequests.LeadingZeros | Max-mini-app-main/src/pages/ApprovalPage/lib/transformRequest.ts:31 | leading zeros do not change a number's value |
| MiniRequests.FourDigits | Max-mini-app-main/src/pages/ApprovalPage/lib/transformRequest.ts:31 | numbers below 10000 have at most four digits |
| MiniRequests.RequestNumberReadsBack | Max-mini-app-main/src/pages/ApprovalPage/lib/transformRequest.ts:31 | the request number is "№" and digits that read back as the id; ids below 10000 take exactly four digits |
| MiniRequests.RequestNumberInjective | Max-mini-app-main/src/pages/ApprovalPage/lib/transformRequest.ts:31 | two ids never share a request number |
| MiniRequests.CardOf | Max-mini-app-main/src/pages/ApprovalPage/lib/transformRequest.ts:28-36 | the card carries the id, its number, the formatted date and the mapped status; the description is the content, or the placeholder when there is none, and is never empty |
| MiniRequests.ParseContent | Max-mini-app-main/src/pages/RequestDetailPage/lib/transformRequestDetail.ts:41-54 | an absent or empty content, and one that is not a JSON object, has no structure; otherwise the decoded object |
| MiniRequests.DetailMatchesCard | Max-mini-app-main/src/pages/RequestDetailPage/lib/transformRequestDetail.ts:56-70 | the detail page shows the same number, status and date as the card of the same request |
| MiniRequests.PlainContentShownAsIs | Max-mini-app-main/src/pages/RequestDetailPage/lib/transformRequestDetail.ts:56-70 | plain-text content is shown as it is, under the author's name or the placeholder, with no course, faculty or group |
| MiniRequests.StructuredContentWins | Max-mini-app-main/src/pages/RequestDetailPage/lib/transformRequestDetail.ts:56-70 | fields the structured content fills take precedence over every fallback |
| MiniProfile.SplitCourseFacultyGroup | Max-mini-app-main/src/pages/ProfilePage/lib/transformProfile.ts:19-26 | an absent or empty line has three empty parts |
| MiniProfile.SplitThree | Max-mini-app-main/src/pages/ProfilePage/lib/transformProfile.ts:24-25 | a line of three comma-free pieces gives each piece back, trimmed |
| MiniProfile.SplitDropsRest | Max-mini-app-main/src/pages/ProfilePage/lib/transformProfile.ts:24-25 | pieces after the third are dropped |
| MiniProfile.SplitOnlyCourse | Max-mini-app-main/src/pages/ProfilePage/lib/transformProfile.ts:24-25 | a line without a comma is all course, with empty faculty and group |
| MiniProfile.SplitNone | Max-mini-app-main/src/pages/ProfilePage/lib/transformProfile.ts:24 | a text without a comma splits into itself alone |
| MiniProfile.ProfileOf | Max-mini-app-main/src/pages/ProfilePage/lib/transformProfile.ts:28-45 | every card field is non-empty; the avatar is present exactly when a non-empty URL is; the course line parts are the split of the profile's line |
| MiniProfile.PlaceholderOnlyWhenMissing | Max-mini-app-main/src/pages/ProfilePage/lib/transformProfile.ts:38-42 | a field shows the placeholder only when none of its sources is present, and the department wins for the position |
| MiniLibrary.RunLength | Max-mini-app-main/src/pages/LibraryPage/lib/transformLibraryAccess.ts:12 | the greedy run of non-whitespace characters: none of them is whitespace, and it stops at the end or at whitespace |
| MiniLibrary.MatchEnd | Max-mini-app-main/src/pages/LibraryPage/lib/transformLibraryAccess.ts:12 | a match ends past its scheme and within the text |
| MiniLibrary.SchemeOfPrefix | Max-mini-app-main/src/pages/LibraryPage/lib/transformLibraryAccess.ts:12 | a prefix long enough for the longer scheme has the text's scheme |
| MiniLibrary.SchemeNoSpace | Max-mini-app-main/src/pages/LibraryPage/lib/transformLibraryAccess.ts:12 | a scheme contains no whitespace |
| MiniLibrary.MatchIsToken | Max-mini-app-main/src/pages/LibraryPage/lib/transformLibraryAccess.ts:12 | the match found at a position is a link token |
| MiniLibrary.UrlsAreTokens | Max-mini-app-main/src/pages/LibraryPage/lib/transformLibraryAccess.ts:12-19 | every global match is a link token |
| MiniLibrary.TokenTrimmed | Max-mini-app-main/src/pages/LibraryPage/lib/transformLibraryAccess.ts:20 | trimming a link token changes nothing |
| MiniLibrary.ExtractedAreMatches | Max-mini-app-main/src/pages/LibraryPage/lib/transformLibraryAccess.ts:14-21 | the extracted links of a non-empty text are exactly its matches, each a link token |
| MiniLibrary.RunLengthOf | Max-mini-app-main/src/pages/LibraryPage/lib/transformLibraryAccess.ts:12 | a run without whitespace followed by the end or whitespace is read whole |
| MiniLibrary.TokenMatched | Max-mini-app-main/src/pages/LibraryPage/lib/transformLibraryAccess.ts:12-19 | a token at the start of the text is matched whole, and the scan goes on after it |
| MiniLibrary.TokenThenRest | Max-mini-app-main/src/pages/LibraryPage/lib/transformLibraryAccess.ts:12-19 | a token, a blank and more text give the token, then the links of the rest |
| MiniLibrary.SpacedLinksFound | Max-mini-app-main/src/pages/LibraryPage/lib/transformLibraryAccess.ts:14-21 | links separated by single spaces are all found, in order |
| MiniLibrary.LibraryOf | Max-mini-app-main/src/pages/LibraryPage/lib/transformLibraryAccess.ts:23-36 | the libraries have no repeats and are exactly the candidates; the instructions are the text or the empty one |
| MiniLibrary.ExtractedNonEmpty | Max-mini-app-main/src/pages/LibraryPage/lib/transformLibraryAccess.ts:14-21 | every extracted link is a non-empty token |
| MiniLibrary.DedupKeepsHead | Max-mini-app-main/src/pages/LibraryPage/lib/transformLibraryAccess.ts:26 | the first candidate stays first after the Set removes repeats |
| MiniLibrary.LibrariesListed | Max-mini-app-main/src/pages/LibraryPage/lib/transformLibraryAccess.ts:23-36 | the portal comes first, every link of the instructions is listed, and nothing else is |

## Left out

- Database plumbing (sessions, commit, refresh, query building): tables are values and every service call is one atomic step.
- Concurrency: the backend takes no locks, and the bot's update loop, mutexes, goroutine module runner and the notify server's start and shutdown are not modelled.
- Disk and network I/O are not modelled:
  - storing request documents (`add_request_document`) and the upload endpoints' file handling;
  - the httpx post to the bot;
  - the Go HTTP clients, including the HTTP half of backend/applications.go (login, doRequest, downloadAttachment, sendRequestDocument);
  - sending messages and keyboards from the bot.
- The bot's reply to a bulk push is not modelled: per-user send errors are only logged.
- Foreign calls become parameters:
  - JWT and access-token creation, including the token `register_user` issues;
  - uuid generation, `datetime.now`, `time.Now` and `time.Parse` (the day of a date is the `dateDay` parameter);
  - JSON marshalling and `JSON.parse` (the `decode` parameters);
  - the `Intl` date formatter (the `format` parameter);
  - the e-mail regular expression.
- Floating-point amounts (the ruble conversion, percent rounding) are not modelled.
- Thin CRUD with no rules of its own is not modelled: create_event, update_event, get_user_events, create_elective, update_elective, the get_schedule_for_* queries, and the seed scripts.
- create_user is plain CRUD and gets no member. get_user_by_max_id is the lookup `RegistrationService.UserWithMaxId`.
- Frontend runtime is not modelled: React hooks, storage and bridges, getImageUrl's image preload, and useUserRole's query. The fallback image, the API base and `defaultRole` are parameters.
- The handlers' encoding: handlers.go's Russian texts are mis-encoded, so the registration prompts and replies are modelled as tags (`RegPrompt`, `Reply`) rather than as the literal texts.
- The reply texts of the backend in completeRegistration are not modelled.
- The bot's menu sending, its other callbacks (payments, ready-document e-mail, menu navigation) and the e-mail session are not modelled.
- buildMenuBody (menu.go:68-78) only wraps the rendered menu as a keyboard attachment; the rendering is modelled, the wrapping is not.
- formatSuccessMessage is named as the reply tag `Success(formTitle)`, not its text.
- ResolveRole's delegation to the backend, newApplicationCoordinator and MockSubmittedFiles are one-line forwards and are not modelled.
- A nil registration coordinator or nil application backend is not modelled, except where the handlers test for it (`hasApplications`, `hasBackend`).
- The session payload's JSON encoding (marshal and the FromPayload restorers) is the `encode` parameter, and a restore failure is not modelled. Message attachments are abstract (`Attachments`).
- RedirectStdLogger's sink (zerolog) is left out; only the redaction of what is written is modelled.
- The error messages that interpolate a role (`f"... {request.role} ..."`, user_service.py and registration_service.py) show the role's value ("admin"). That is what older Python versions print for an enum mixed with str; newer versions print the member name ("UserRole.ADMIN") instead.
- UUIDs, timestamps and autoincrement ids are inputs of the operations.
- PaymentService.Trace: get_payment_history orders by created_at ascending (payment_service.py:212-216). History rows carry no time in the model: one row is appended per call, so table order is creation order. Rows created at the same instant, which the query may return in any order, are kept in table order.
- MiniLib.NotSpecified: the mini-app's placeholder literal is mis-encoded in the source. The model uses "Не указано", the reading its byte pattern and its use as "not specified" imply.
- MiniRequests.MapStatus: the status table is exactly its four keys. A lookup of an inherited JavaScript property name (such as "constructor") is not modelled.
- Common.Lower: folds ASCII and the basic Cyrillic letters only. Other scripts keep their case.
- AppSchedule.SortLessons: sorts by insertion. That is how Go's sort.SliceStable sorts up to 20 elements; longer slices are merged in Go. The comparison `Less` is not transitive (`LessCycle`), so for more than 20 lessons Go's merge can order them differently from the insertion sort; the merge steps are not modelled, and `SortSpec` is the insertion sort's order.
- AppSchedule.CivilFromDays: the civil-date conversion is stated as arithmetic with no lemma bounding the month and day it returns.
- AppSchedule and AppRegistration: a nil slice is modelled as an empty one, and strconv.Atoi's overflow on very long numbers is not modelled.
- BackendApplications.BuildRequestContent: the order in which Go visits map keys is the `order` parameter (any list of the keys without repeats). Go's sort.Strings is modelled as a comparison by code point (`StrLess`), which is how Go compares strings of valid UTF-8.
- RecordFileAnswer in applications.go has the same body as RecordAnswer and is modelled by it.
- MiniProfile.SplitCourseFacultyGroup: its own contract states only the empty case. The split of a non-empty line is stated by SplitThree, SplitDropsRest and SplitOnlyCourse for comma-free pieces, not for every line.
- StdlogBridge: the replacement of a token leaves no token in the text only where the lemmas say so; no lemma states that the token is absent after ReplaceAll in general.
- MenuService: the admin menu lacks the student items that its docstring says it includes. The model follows the code and does not list this as a finding, because the docstring alone does not show which was intended.
- UserService.LeadingDigits: counts only the ASCII digits 0-9. Python's `\d` and `int()` (user_service.py:167-169) also accept other Unicode decimal digits, such as Arabic-Indic ones; a group name that starts with those is not modelled.
- StdlogBridge.Write: returns the length of p in characters. Go's `len(p)` counts bytes, so for text outside ASCII the model's count is smaller than the UTF-8 byte count Go returns.
- ScheduleService.ApplyUpdate: sets only the lesson's scalar columns and its id. A list value for a scalar column, the relationship attributes (teacher, room, subject, timeslot, groups) and the other attributes SQLAlchemy objects carry are not modelled, and neither are the database effects of changing a primary key (autoflush, foreign keys).

## Findings

| source | as written | input that shows it | evidently intended | confidence | as-written member | corrected member |
|---|---|---|---|---|---|---|
| backend/app/services/schedule_service.py:131-137 | the loop `for group_id in patch.data["group_ids"]` reuses the function's `group_id` parameter. After an update that links groups, the changelog and the version bump use the last linked group instead of the batch's group | a batch with no group and one update linking groups 5 and 7: the changelog logs group 7, and group 7's version is bumped | the batch's group stays as requested; without one, the update logs its first linked group and no version is bumped | not executed | ScheduleService.AsWrittenRebindsGroup, ScheduleService.AsWrittenUpdateGroup, ScheduleService.ScheduleStore.PatchBatch | ScheduleService.IntendedWitness, ScheduleService.IntendedKeepsScope, ScheduleService.IntendedNoGroupNoBump |
| backend/app/api/v1/endpoints/broadcasts.py:58-59 | the listing reads `broadcast.faculty.name`, but a faculty row has a `title` and no `name` (backend/app/models/faculty.py:14). The same read recurs at lines 84-85, 106-107 and 129-130 | any broadcast whose targeted faculty exists, e.g. faculty 7 "ФИТ": the read raises AttributeError, which no handler catches, so the endpoint answers 500; create answers 500 after the broadcast is stored and pushed | the faculty's title is shown as `faculty_name` | not executed | BroadcastEndpoints.RenderAsWritten, BroadcastEndpoints.FacultyBroadcastFailsAsWritten, BroadcastEndpoints.GetBroadcasts, BroadcastEndpoints.CreateBroadcastEndpoint | BroadcastEndpoints.Render, BroadcastEndpoints.FacultyBroadcastWitness |
| max_bot/internal/app/handlers.go:609-614 | the cancel word is compared as a mis-encoded literal that contains a capital letter, so no lower-cased answer can ever equal it | typing "отмена" or "Отмена" during registration does not cancel; as written only "/cancel" does | "отмена" in any case cancels the registration, as "/cancel" does | not executed | AppHandlers.CancelsAsWritten, AppHandlers.CancelWordUnreachable, AppHandlers.CancelWordIgnoredAsWritten, AppHandlers.CancelWordTakenAsFullName | AppHandlers.Cancels, AppHandlers.CancelWordAccepted, AppHandlers.CapitalCancelAccepted |
