/*
 * The request approval workflow: routing a new request to its first
 * approver, approving and rejecting the current step, and the read queries.
 *
 * The organisation directory is a value whose sequences list each table's
 * rows in table order; an unordered `.first()` query is the first matching
 * row.  The requests table and the step log are a `Db` value; the
 * operations are specification functions over it, and `RequestStore` is the
 * mutable store whose methods are proved equal to them.
 */
module RequestService {
  import opened Common
  import opened RequestModel

  // ---------------------------------------------------------------------------
  // Organisation directory
  // ---------------------------------------------------------------------------

  datatype UserRole = RoleStudent | RoleStaff | RoleAdmin
  datatype User = User(id: UserId, role: UserRole, maxId: Option<int>)
  datatype Student = Student(userId: UserId, facultyId: Option<int>, groupId: Option<int>)
  datatype StudentGroup = StudentGroup(id: int, curatorUserId: Option<UserId>)
  datatype Faculty = Faculty(id: int, universityId: int)
  datatype Teacher = Teacher(userId: UserId, kafedraId: int)
  datatype Kafedra = Kafedra(id: int, facultyId: int)
  datatype Staff = Staff(userId: UserId, universityId: int)

  datatype Directory = Directory(
    users: seq<User>,
    students: seq<Student>,
    groups: seq<StudentGroup>,
    faculties: seq<Faculty>,
    teachers: seq<Teacher>,
    kafedras: seq<Kafedra>,
    staff: seq<Staff>)

  predicate HasAdmin(d: Directory) {
    exists i :: 0 <= i < |d.users| && d.users[i].role == RoleAdmin
  }

  predicate IsAdmin(d: Directory, u: UserId) {
    exists i :: 0 <= i < |d.users| && d.users[i].role == RoleAdmin && d.users[i].id == u
  }

  function FirstAdmin(d: Directory): (r: Option<UserId>)
    ensures r.None? <==> !HasAdmin(d)
    ensures r.Some? ==> IsAdmin(d, r.value)
  {
    match FirstWhere(d.users, (x: User) => x.role == RoleAdmin)
    case None => None
    case Some(x) => Some(x.id)
  }

  predicate HasStaffAt(d: Directory, university: int) {
    exists i :: 0 <= i < |d.staff| && d.staff[i].universityId == university
  }

  predicate IsStaffAt(d: Directory, u: UserId, university: int) {
    exists i :: 0 <= i < |d.staff| && d.staff[i].universityId == university && d.staff[i].userId == u
  }

  /** The route rule shared by the deanery and HR picks: a staff member of the university, else an admin, else nobody. */
  predicate StaffElseAdmin(d: Directory, university: int, r: Option<UserId>) {
    && (r.Some? <==> HasStaffAt(d, university) || HasAdmin(d))
    && (r.Some? && HasStaffAt(d, university) ==> IsStaffAt(d, r.value, university))
    && (r.Some? && !HasStaffAt(d, university) ==> IsAdmin(d, r.value))
  }

  function FindFaculty(d: Directory, id: int): (r: Option<Faculty>)
    ensures r.None? <==> forall i :: 0 <= i < |d.faculties| ==> d.faculties[i].id != id
    ensures r.Some? ==> r.value in d.faculties && r.value.id == id
  {
    FirstWhere(d.faculties, (f: Faculty) => f.id == id)
  }

  function FindKafedra(d: Directory, id: int): (r: Option<Kafedra>)
    ensures r.None? <==> forall i :: 0 <= i < |d.kafedras| ==> d.kafedras[i].id != id
    ensures r.Some? ==> r.value in d.kafedras && r.value.id == id
  {
    FirstWhere(d.kafedras, (k: Kafedra) => k.id == id)
  }

  function FindGroup(d: Directory, id: int): (r: Option<StudentGroup>)
    ensures r.None? <==> forall i :: 0 <= i < |d.groups| ==> d.groups[i].id != id
    ensures r.Some? ==> r.value in d.groups && r.value.id == id
  {
    FirstWhere(d.groups, (g: StudentGroup) => g.id == id)
  }

  function FindStudent(d: Directory, u: UserId): (r: Option<Student>)
    ensures r.None? <==> forall i :: 0 <= i < |d.students| ==> d.students[i].userId != u
    ensures r.Some? ==> r.value in d.students && r.value.userId == u
  {
    FirstWhere(d.students, (s: Student) => s.userId == u)
  }

  function FindTeacher(d: Directory, u: UserId): (r: Option<Teacher>)
    ensures r.None? <==> forall i :: 0 <= i < |d.teachers| ==> d.teachers[i].userId != u
    ensures r.Some? ==> r.value in d.teachers && r.value.userId == u
  {
    FirstWhere(d.teachers, (t: Teacher) => t.userId == u)
  }

  /** Deanery of a faculty: staff of the faculty's university, else an admin; nobody for an unknown faculty. */
  function DeaneryStaffForFaculty(d: Directory, facultyId: int): (r: Option<UserId>)
    ensures FindFaculty(d, facultyId).None? ==> r.None?
    ensures FindFaculty(d, facultyId).Some? ==> StaffElseAdmin(d, FindFaculty(d, facultyId).value.universityId, r)
  {
    match FindFaculty(d, facultyId)
    case None => None
    case Some(faculty) =>
      match FirstWhere(d.staff, (s: Staff) => s.universityId == faculty.universityId)
      case Some(s) => Some(s.userId)
      case None => FirstAdmin(d)
  }

  /** HR of a university: one of its staff, else an admin. */
  function HrStaffForUniversity(d: Directory, university: int): (r: Option<UserId>)
    ensures StaffElseAdmin(d, university, r)
  {
    match FirstWhere(d.staff, (s: Staff) => s.universityId == university)
    case Some(s) => Some(s.userId)
    case None => FirstAdmin(d)
  }

  predicate HasColleague(d: Directory, kafedraId: int, author: UserId) {
    exists i :: 0 <= i < |d.teachers| && d.teachers[i].kafedraId == kafedraId && d.teachers[i].userId != author
  }

  predicate IsColleague(d: Directory, kafedraId: int, author: UserId, u: UserId) {
    exists i :: 0 <= i < |d.teachers| && d.teachers[i].kafedraId == kafedraId && d.teachers[i].userId == u && u != author
  }

  /**
   * The kafedra-head route: nobody when the author is not a teacher; else
   * another teacher of the author's kafedra (never the author), else an
   * admin, and somebody whenever either exists.
   */
  predicate RoutedToKafedraHead(d: Directory, author: UserId, r: Option<UserId>) {
    if FindTeacher(d, author).None? then r.None?
    else
      var k := FindTeacher(d, author).value.kafedraId;
      && (r.Some? <==> HasColleague(d, k, author) || HasAdmin(d))
      && (r.Some? && HasColleague(d, k, author) ==> IsColleague(d, k, author, r.value))
      && (r.Some? && !HasColleague(d, k, author) ==> IsAdmin(d, r.value))
  }

  /**
   * The deanery route: nobody when the author is not a student, has no
   * faculty or the faculty is unknown; else staff of that faculty's
   * university, else an admin.
   */
  predicate RoutedToDeanery(d: Directory, author: UserId, r: Option<UserId>) {
    var s := FindStudent(d, author);
    if s.None? || s.value.facultyId.None? || FindFaculty(d, s.value.facultyId.value).None? then r.None?
    else StaffElseAdmin(d, FindFaculty(d, s.value.facultyId.value).value.universityId, r)
  }

  /**
   * The HR route: nobody unless the author is a teacher whose kafedra and
   * faculty are known; else staff of the university above the kafedra,
   * else an admin.
   */
  predicate RoutedToHr(d: Directory, author: UserId, r: Option<UserId>) {
    var t := FindTeacher(d, author);
    if t.None? || FindKafedra(d, t.value.kafedraId).None? then r.None?
    else
      var f := FindFaculty(d, FindKafedra(d, t.value.kafedraId).value.facultyId);
      if f.None? then r.None? else StaffElseAdmin(d, f.value.universityId, r)
  }

  /** Head of the author's kafedra, by the kafedra-head route. */
  function KafedraHeadForTeacher(d: Directory, author: UserId): (r: Option<UserId>)
    ensures RoutedToKafedraHead(d, author, r)
  {
    match FindTeacher(d, author)
    case None => None
    case Some(teacher) =>
      match FirstWhere(d.teachers, (t: Teacher) => t.kafedraId == teacher.kafedraId && t.userId != author)
      case Some(t) => Some(t.userId)
      case None => FirstAdmin(d)
  }

  /** Curator of the author's group. There is no fallback when the group has no curator. */
  function CuratorOf(d: Directory, author: UserId): (r: Option<UserId>)
    ensures r.Some? ==> exists s, g :: s in d.students && g in d.groups && s.userId == author
                                      && s.groupId == Some(g.id) && g.curatorUserId == r
    ensures FindStudent(d, author).None? ==> r.None?
  {
    match FindStudent(d, author)
    case None => None
    case Some(s) =>
      if s.groupId.None? then None
      else
        match FindGroup(d, s.groupId.value)
        case None => None
        case Some(g) => g.curatorUserId
  }

  /**
   * The per-type route's first approver: nobody for a certificate, the
   * group's curator for academic leave, the deanery for a transfer and the
   * kafedra head for vacation and document approval.
   */
  function FirstApprover(d: Directory, t: RequestType, author: UserId): (r: Option<UserId>)
    ensures t == StudentCertificate ==> r.None?
    ensures t == AcademicLeave ==> r == CuratorOf(d, author)
    ensures t == Transfer ==> RoutedToDeanery(d, author, r)
    ensures (t == Vacation || t == DocumentApproval) ==> RoutedToKafedraHead(d, author, r)
  {
    match t
    case StudentCertificate => None
    case AcademicLeave => CuratorOf(d, author)
    case Transfer =>
      (match FindStudent(d, author)
       case Some(s) => if s.facultyId.Some? then DeaneryStaffForFaculty(d, s.facultyId.value) else None
       case None => None)
    case Vacation => KafedraHeadForTeacher(d, author)
    case DocumentApproval => KafedraHeadForTeacher(d, author)
  }

  /** Role label of the first step: "Куратор" unless the type names another one. */
  function FirstStepRole(t: RequestType): (r: string)
    ensures t == Transfer ==> r == "Деканат"
    ensures (t == Vacation || t == DocumentApproval) ==> r == "Руководитель"
    ensures t == AcademicLeave ==> r == "Куратор"
  {
    if t == Transfer then "Деканат"
    else if t == Vacation || t == DocumentApproval then "Руководитель"
    else "Куратор"
  }

  /** The approver named by a next step, if there is one. */
  function ApproverPart(next: Option<(UserId, string)>): Option<UserId> {
    if next.Some? then Some(next.value.0) else None
  }

  /**
   * The approver of the step that follows an approved one: the deanery after
   * the curator for academic leave, HR after the head for vacation, and only
   * after step 1.  Every other case has no next step.
   */
  function NextApprover(d: Directory, req: Request, approvedOrder: Option<int>): (r: Option<(UserId, string)>)
    ensures r.Some? ==> approvedOrder == Some(1)
    ensures r.Some? ==> ((req.requestType == AcademicLeave && r.value.1 == "Деканат")
                         || (req.requestType == Vacation && r.value.1 == "Отдел кадров"))
    ensures approvedOrder == Some(1) && req.requestType == AcademicLeave ==>
              RoutedToDeanery(d, req.authorUserId, ApproverPart(r))
    ensures approvedOrder == Some(1) && req.requestType == Vacation ==>
              RoutedToHr(d, req.authorUserId, ApproverPart(r))
  {
    if approvedOrder != Some(1) then None
    else if req.requestType == AcademicLeave then
      match FindStudent(d, req.authorUserId)
      case None => None
      case Some(s) =>
        if s.facultyId.None? then None
        else
          match DeaneryStaffForFaculty(d, s.facultyId.value)
          case None => None
          case Some(u) => Some((u, "Деканат"))
    else if req.requestType == Vacation then
      match FindTeacher(d, req.authorUserId)
      case None => None
      case Some(teacher) =>
        match FindKafedra(d, teacher.kafedraId)
        case None => None
        case Some(kafedra) =>
          match FindFaculty(d, kafedra.facultyId)
          case None => None
          case Some(faculty) =>
            match HrStaffForUniversity(d, faculty.universityId)
            case None => None
            case Some(u) => Some((u, "Отдел кадров"))
    else None
  }

  // ---------------------------------------------------------------------------
  // Requests table and step log
  // ---------------------------------------------------------------------------

  /** The requests, each request's step log (rows in insertion order), and the next autoincrement id. */
  datatype Db = Db(requests: map<int, Request>, steps: map<int, seq<ApprovalStep>>, nextId: int)

  const ErrNotFound := "Заявка не найдена"
  const ErrNotCurrentApprover := "Вы не являетесь текущим согласующим"
  const ErrAlreadyProcessed := "Заявка уже обработана"

  function Log(db: Db, id: int): seq<ApprovalStep> {
    if id in db.steps then db.steps[id] else []
  }

  /** Index of the PENDING step with the highest step_order (the step approve and reject close). */
  function CurrentStep(log: seq<ApprovalStep>): (r: Option<nat>)
    ensures r.None? <==> forall j :: 0 <= j < |log| ==> log[j].action != ActionPending
    ensures r.Some? ==> r.value < |log| && log[r.value].action == ActionPending
    ensures r.Some? ==> forall j :: 0 <= j < |log| && log[j].action == ActionPending ==> log[j].stepOrder <= log[r.value].stepOrder
  {
    if log == [] then None
    else
      var init := log[..|log| - 1];
      var prev := CurrentStep(init);
      assert forall j :: 0 <= j < |init| ==> init[j] == log[j];
      if log[|log| - 1].action == ActionPending
         && (prev.None? || log[|log| - 1].stepOrder > log[prev.value].stepOrder)
      then Some(|log| - 1)
      else prev
  }

  /** The log with its current step, if any, closed with the given action. */
  function CloseCurrent(log: seq<ApprovalStep>, action: ApprovalAction, comment: Option<string>, now: int): (r: seq<ApprovalStep>)
    requires action != ActionPending
    ensures |r| == |log|
    ensures CurrentStep(log).None? ==> r == log
    ensures CurrentStep(log).Some? ==>
      var c := CurrentStep(log).value;
      && r[c] == CloseStep(log[c], action, comment, now)
      && forall j :: 0 <= j < |log| && j != c ==> r[j] == log[j]
  {
    match CurrentStep(log)
    case None => log
    case Some(c) => log[c := CloseStep(log[c], action, comment, now)]
  }

  /** create_request: the new request, its step log and the database after the insert. */
  function CreateSpec(db: Db, d: Directory, t: RequestType, content: Option<string>, author: UserId,
                      now: int, stepId: string): (r: (Db, Request))
    ensures r.1.id == db.nextId && r.0.nextId == db.nextId + 1
    ensures r.0.requests == db.requests[db.nextId := r.1]
    ensures db.nextId in r.0.steps && r.0.steps == db.steps[db.nextId := r.0.steps[db.nextId]]
    ensures r.1.authorUserId == author && r.1.requestType == t && r.1.content == content
  {
    var id := db.nextId;
    var approver := if t == StudentCertificate then None else FirstApprover(d, t, author);
    var status := if t == StudentCertificate then Approved else Pending;
    var req := NewRequest(id, t, author, content, Some(status), approver, now);
    var log := if status == Pending && approver.Some?
               then [NewStep(stepId, id, 1, approver, Some(FirstStepRole(t)), now)]
               else [];
    (Db(db.requests[id := req], db.steps[id := log], id + 1), req)
  }

  /** The guard chain shared by approve and reject, in the order the service checks it. */
  function CheckApprover(db: Db, id: int, approver: UserId): Option<string> {
    if id !in db.requests then Some(ErrNotFound)
    else if db.requests[id].currentApproverId != Some(approver) then Some(ErrNotCurrentApprover)
    else if db.requests[id].status != Pending then Some(ErrAlreadyProcessed)
    else None
  }

  /**
   * What approve does to a request that passed the guards and to its log:
   * close the current step APPROVED, then either append the next step and
   * switch the approver, or finalise the request as APPROVED.
   */
  function ApproveOne(d: Directory, req: Request, log: seq<ApprovalStep>, comment: Option<string>,
                      now: int, stepId: string): (r: (Request, seq<ApprovalStep>))
    ensures r.0.id == req.id && r.0.requestType == req.requestType && r.0.authorUserId == req.authorUserId
    ensures r.0.content == req.content && r.0.rejectionReason == req.rejectionReason && r.0.createdAt == req.createdAt
    ensures |log| <= |r.1| <= |log| + 1
  {
    var cur := CurrentStep(log);
    var closed := CloseCurrent(log, ActionApproved, comment, now);
    var approvedOrder := if cur.Some? then Some(log[cur.value].stepOrder) else None;
    match NextApprover(d, req, approvedOrder)
    case Some((next, role)) =>
      var order := if cur.Some? then log[cur.value].stepOrder + 1 else 1;
      (req.(currentApproverId := Some(next), status := Pending, updatedAt := now),
       closed + [NewStep(stepId, req.id, order, Some(next), Some(role), now)])
    case None =>
      (req.(status := Approved, currentApproverId := None, updatedAt := now), closed)
  }

  /** What reject does to a request that passed the guards and to its log. */
  function RejectOne(req: Request, log: seq<ApprovalStep>, reason: string, now: int): (r: (Request, seq<ApprovalStep>))
    ensures r.0.id == req.id && r.0.requestType == req.requestType && r.0.authorUserId == req.authorUserId
    ensures r.0.content == req.content && r.0.createdAt == req.createdAt
    ensures |r.1| == |log|
  {
    (req.(status := Rejected, rejectionReason := Some(reason), currentApproverId := None, updatedAt := now),
     CloseCurrent(log, ActionRejected, Some(reason), now))
  }

  /** The database with one request and its log replaced. */
  function Put(db: Db, id: int, one: (Request, seq<ApprovalStep>)): Db {
    db.(requests := db.requests[id := one.0], steps := db.steps[id := one.1])
  }

  /** approve_request on a database value. */
  function ApproveSpec(db: Db, d: Directory, id: int, approver: UserId, comment: Option<string>,
                       now: int, stepId: string): (r: Result<Db>)
    ensures r.Err? <==> CheckApprover(db, id, approver).Some?
    ensures r.Ok? ==> r.value.nextId == db.nextId && r.value.requests.Keys == db.requests.Keys
    ensures r.Ok? ==> && id in r.value.requests && id in r.value.steps
                      && r.value.requests == db.requests[id := r.value.requests[id]]
                      && r.value.steps == db.steps[id := r.value.steps[id]]
  {
    match CheckApprover(db, id, approver)
    case Some(e) => Err(e)
    case None => Ok(Put(db, id, ApproveOne(d, db.requests[id], Log(db, id), comment, now, stepId)))
  }

  /** reject_request on a database value. */
  function RejectSpec(db: Db, id: int, approver: UserId, reason: string, now: int): (r: Result<Db>)
    ensures r.Err? <==> CheckApprover(db, id, approver).Some?
    ensures r.Ok? ==> r.value.nextId == db.nextId && r.value.requests.Keys == db.requests.Keys
    ensures r.Ok? ==> && id in r.value.requests && id in r.value.steps
                      && r.value.requests == db.requests[id := r.value.requests[id]]
                      && r.value.steps == db.steps[id := r.value.steps[id]]
  {
    match CheckApprover(db, id, approver)
    case Some(e) => Err(e)
    case None => Ok(Put(db, id, RejectOne(db.requests[id], Log(db, id), reason, now)))
  }

  // ---------------------------------------------------------------------------
  // The workflow invariant
  // ---------------------------------------------------------------------------

  /**
   * What every request's step log looks like: orders 1..n without gaps, at
   * most two steps (two only on the routes with a second approver), every
   * step but the last approved, processed_at set exactly on steps that left
   * PENDING, and the request's status and current approver agreeing with the
   * last step.
   */
  ghost predicate ValidLog(req: Request, log: seq<ApprovalStep>) {
    && |log| <= 2
    && (forall j :: 0 <= j < |log| ==> log[j].requestId == req.id && log[j].stepOrder == j + 1)
    && (forall j :: 0 <= j < |log| ==> (log[j].action == ActionPending <==> log[j].processedAt.None?))
    && (forall j :: 0 <= j < |log| - 1 ==> log[j].action == ActionApproved)
    && (|log| == 2 ==> req.requestType == AcademicLeave || req.requestType == Vacation)
    && (req.requestType == StudentCertificate ==> log == [] && req.status == Approved)
    && (req.status == Rejected <==> req.rejectionReason.Some?)
    && match req.status
       case Pending =>
         if log == [] then req.currentApproverId.None?
         else log[|log| - 1].action == ActionPending && log[|log| - 1].approverUserId.Some?
              && req.currentApproverId == log[|log| - 1].approverUserId
       case Approved =>
         req.currentApproverId.None?
         && (if log == [] then req.requestType == StudentCertificate else log[|log| - 1].action == ActionApproved)
       case Rejected =>
         req.currentApproverId.None? && log != [] && log[|log| - 1].action == ActionRejected
  }

  /** Every request is stored under its own id, below the next autoincrement value, with a step log. */
  predicate WellKeyed(db: Db) {
    && 1 <= db.nextId
    && db.steps.Keys == db.requests.Keys
    && (forall k :: k in db.requests ==> 1 <= k < db.nextId && db.requests[k].id == k)
  }

  ghost predicate Valid(db: Db) {
    && WellKeyed(db)
    && (forall k :: k in db.requests ==> ValidLog(db.requests[k], db.steps[k]))
  }

  function EmptyDb(): (db: Db)
    ensures Valid(db) && db.requests == map[]
  {
    Db(map[], map[], 1)
  }

  /** On a valid log the current step is the last step when it is pending, and there is none otherwise. */
  lemma CurrentStepOfValidLog(req: Request, log: seq<ApprovalStep>)
    requires ValidLog(req, log)
    ensures CurrentStep(log) == if log != [] && log[|log| - 1].action == ActionPending then Some(|log| - 1) else None
  {
  }

  lemma CreatePreservesValid(db: Db, d: Directory, t: RequestType, content: Option<string>, author: UserId,
                             now: int, stepId: string)
    requires Valid(db)
    ensures Valid(CreateSpec(db, d, t, content, author, now, stepId).0)
  {
    var (db', req) := CreateSpec(db, d, t, content, author, now, stepId);
    assert ValidLog(req, db'.steps[db.nextId]);
    InsertPreservesValid(db, req, db'.steps[db.nextId]);
  }

  /** Inserting a valid pair under the next id keeps the database valid. */
  lemma InsertPreservesValid(db: Db, req: Request, log: seq<ApprovalStep>)
    requires Valid(db) && req.id == db.nextId && ValidLog(req, log)
    ensures Valid(Db(db.requests[req.id := req], db.steps[req.id := log], db.nextId + 1))
  {
    var db' := Db(db.requests[req.id := req], db.steps[req.id := log], db.nextId + 1);
    forall k | k in db'.requests ensures ValidLog(db'.requests[k], db'.steps[k]) {
      if k != req.id {
        assert db'.requests[k] == db.requests[k] && db'.steps[k] == db.steps[k];
      }
    }
  }

  /** Replacing one request and its log by a valid pair keeps the database valid. */
  lemma PutPreservesValid(db: Db, id: int, one: (Request, seq<ApprovalStep>))
    requires Valid(db) && id in db.requests && one.0.id == id && ValidLog(one.0, one.1)
    ensures Valid(Put(db, id, one))
  {
    var db' := Put(db, id, one);
    forall k | k in db'.requests ensures ValidLog(db'.requests[k], db'.steps[k]) {
      if k != id {
        assert db'.requests[k] == db.requests[k] && db'.steps[k] == db.steps[k];
      }
    }
  }

  lemma ApproveOneValid(d: Directory, req: Request, log: seq<ApprovalStep>, comment: Option<string>, now: int, stepId: string)
    requires ValidLog(req, log) && req.status == Pending && req.currentApproverId.Some?
    ensures ValidLog(ApproveOne(d, req, log, comment, now, stepId).0, ApproveOne(d, req, log, comment, now, stepId).1)
  {
    CurrentStepOfValidLog(req, log);
    var c := |log| - 1;
    var closed := log[c := CloseStep(log[c], ActionApproved, comment, now)];
    assert CloseCurrent(log, ActionApproved, comment, now) == closed;
    assert log[c].stepOrder == |log|;
    var next := NextApprover(d, req, Some(|log|));
    if next.Some? {
      ClosedThenNextValid(req, log, closed, comment, now, NewStep(stepId, req.id, |log| + 1, Some(next.value.0), Some(next.value.1), now));
    } else {
      ClosedFinalValid(req, log, closed, comment, now);
    }
  }

  lemma ClosedThenNextValid(req: Request, log: seq<ApprovalStep>, closed: seq<ApprovalStep>, comment: Option<string>,
                            now: int, step: ApprovalStep)
    requires ValidLog(req, log) && req.status == Pending && req.currentApproverId.Some?
    requires |log| == 1 && (req.requestType == AcademicLeave || req.requestType == Vacation)
    requires closed == [CloseStep(log[0], ActionApproved, comment, now)]
    requires step.action == ActionPending && step.processedAt.None? && step.approverUserId.Some?
    requires step.requestId == req.id && step.stepOrder == 2
    ensures ValidLog(req.(currentApproverId := step.approverUserId, status := Pending, updatedAt := now), closed + [step])
  {
  }

  lemma ClosedFinalValid(req: Request, log: seq<ApprovalStep>, closed: seq<ApprovalStep>, comment: Option<string>, now: int)
    requires ValidLog(req, log) && req.status == Pending && req.currentApproverId.Some?
    requires log != [] && log[|log| - 1].action == ActionPending
    requires closed == log[|log| - 1 := CloseStep(log[|log| - 1], ActionApproved, comment, now)]
    ensures ValidLog(req.(status := Approved, currentApproverId := None, updatedAt := now), closed)
  {
  }

  lemma RejectOneValid(req: Request, log: seq<ApprovalStep>, reason: string, now: int)
    requires ValidLog(req, log) && req.status == Pending && req.currentApproverId.Some?
    ensures ValidLog(RejectOne(req, log, reason, now).0, RejectOne(req, log, reason, now).1)
  {
    CurrentStepOfValidLog(req, log);
  }

  lemma ApprovePreservesValid(db: Db, d: Directory, id: int, approver: UserId, comment: Option<string>,
                              now: int, stepId: string)
    requires Valid(db)
    ensures ApproveSpec(db, d, id, approver, comment, now, stepId).Ok? ==>
            Valid(ApproveSpec(db, d, id, approver, comment, now, stepId).value)
  {
    if CheckApprover(db, id, approver).None? {
      ApproveOneValid(d, db.requests[id], db.steps[id], comment, now, stepId);
      PutPreservesValid(db, id, ApproveOne(d, db.requests[id], db.steps[id], comment, now, stepId));
    }
  }

  lemma RejectPreservesValid(db: Db, id: int, approver: UserId, reason: string, now: int)
    requires Valid(db)
    ensures RejectSpec(db, id, approver, reason, now).Ok? ==> Valid(RejectSpec(db, id, approver, reason, now).value)
  {
    if CheckApprover(db, id, approver).None? {
      RejectOneValid(db.requests[id], db.steps[id], reason, now);
      PutPreservesValid(db, id, RejectOne(db.requests[id], db.steps[id], reason, now));
    }
  }

  // ---------------------------------------------------------------------------
  // Properties of the workflow
  // ---------------------------------------------------------------------------

  /** A student certificate is created APPROVED, with no approver and an empty step log. */
  lemma CreateCertificate(db: Db, d: Directory, content: Option<string>, author: UserId, now: int, stepId: string)
    ensures var (db', req) := CreateSpec(db, d, StudentCertificate, content, author, now, stepId);
            req.status == Approved && req.currentApproverId.None? && db'.steps[req.id] == []
  {
  }

  /**
   * Any other type is created PENDING with its route's first approver: one
   * PENDING step of order 1 for that approver, labelled by the type, or no
   * step and no approver when the route resolves nobody.
   */
  lemma CreateRouted(db: Db, d: Directory, t: RequestType, content: Option<string>, author: UserId, now: int, stepId: string)
    requires t != StudentCertificate
    ensures var (db', req) := CreateSpec(db, d, t, content, author, now, stepId);
            && req.status == Pending
            && req.currentApproverId == FirstApprover(d, t, author)
            && (req.currentApproverId.None? ==> db'.steps[req.id] == [])
            && (req.currentApproverId.Some? ==>
                  |db'.steps[req.id]| == 1
                  && db'.steps[req.id][0].stepOrder == 1
                  && db'.steps[req.id][0].action == ActionPending
                  && db'.steps[req.id][0].approverUserId == req.currentApproverId
                  && db'.steps[req.id][0].approverRole == Some(FirstStepRole(t)))
  {
  }

  /** A request whose route resolved nobody can be neither approved nor rejected by anyone. */
  lemma UnroutableIsStuck(db: Db, d: Directory, id: int, u: UserId, comment: Option<string>, reason: string,
                          now: int, stepId: string)
    requires id in db.requests && db.requests[id].currentApproverId.None?
    ensures ApproveSpec(db, d, id, u, comment, now, stepId) == Err(ErrNotCurrentApprover)
    ensures RejectSpec(db, id, u, reason, now) == Err(ErrNotCurrentApprover)
  {
  }

  /**
   * The guards in order: unknown request, then a caller other than the
   * current approver, then a request no longer PENDING; each error leaves the
   * database as it was (an error result carries no new database).
   */
  lemma GuardOrder(db: Db, id: int, u: UserId)
    ensures CheckApprover(db, id, u) == Some(ErrNotFound) <==> id !in db.requests
    ensures CheckApprover(db, id, u) == Some(ErrNotCurrentApprover) <==>
            id in db.requests && db.requests[id].currentApproverId != Some(u)
    ensures CheckApprover(db, id, u) == Some(ErrAlreadyProcessed) <==>
            id in db.requests && db.requests[id].currentApproverId == Some(u) && db.requests[id].status != Pending
    ensures CheckApprover(db, id, u).None? <==>
            id in db.requests && db.requests[id].currentApproverId == Some(u) && db.requests[id].status == Pending
  {
  }

  /**
   * Because the identity check comes first and a processed request has no
   * approver, a valid database never reports "already processed".
   */
  lemma AlreadyProcessedUnreachable(db: Db, id: int, u: UserId)
    requires Valid(db)
    ensures CheckApprover(db, id, u) != Some(ErrAlreadyProcessed)
  {
    if id in db.requests {
      assert ValidLog(db.requests[id], db.steps[id]);
    }
  }

  /**
   * approve closes exactly the current step (APPROVED, with the comment and
   * the time), keeps every other step, and appends at most one new PENDING
   * step, whose order follows the closed one.
   */
  lemma ApproveStepLog(db: Db, d: Directory, id: int, u: UserId, comment: Option<string>, now: int, stepId: string)
    requires Valid(db)
    requires ApproveSpec(db, d, id, u, comment, now, stepId).Ok?
    ensures var db' := ApproveSpec(db, d, id, u, comment, now, stepId).value;
            var log := db.steps[id];
            var log' := db'.steps[id];
            var c := |log| - 1;
            && log != [] && log[c].action == ActionPending
            && log'[c] == CloseStep(log[c], ActionApproved, comment, now)
            && (forall j :: 0 <= j < c ==> log'[j] == log[j])
            && (|log'| == |log| || (|log'| == |log| + 1 && log'[c + 1].action == ActionPending
                                    && log'[c + 1].stepOrder == log[c].stepOrder + 1))
            && (forall k :: k in db.steps && k != id ==> db'.steps[k] == db.steps[k] && db'.requests[k] == db.requests[k])
  {
    assert ValidLog(db.requests[id], db.steps[id]);
    CurrentStepOfValidLog(db.requests[id], db.steps[id]);
  }

  /**
   * The outcome of an approve: the request stays PENDING, switched to the
   * next approver, exactly when an academic-leave or vacation request has
   * just passed its first step and the second approver resolves; in every
   * other case, including an unresolved second approver, it becomes APPROVED
   * with no approver.
   */
  lemma ApproveOutcome(db: Db, d: Directory, id: int, u: UserId, comment: Option<string>, now: int, stepId: string)
    requires Valid(db)
    requires ApproveSpec(db, d, id, u, comment, now, stepId).Ok?
    ensures var req := db.requests[id];
            var req' := ApproveSpec(db, d, id, u, comment, now, stepId).value.requests[id];
            var next := NextApprover(d, req, Some(|db.steps[id]|));
            && (next.Some? ==> req'.status == Pending && req'.currentApproverId == Some(next.value.0))
            && (next.None? ==> req'.status == Approved && req'.currentApproverId.None?)
            && (req'.status == Pending ==>
                  |db.steps[id]| == 1 && (req.requestType == AcademicLeave || req.requestType == Vacation))
  {
    var log := db.steps[id];
    assert ValidLog(db.requests[id], log);
    CurrentStepOfValidLog(db.requests[id], log);
    assert log[|log| - 1].stepOrder == |log|;
  }

  /**
   * reject closes the current step REJECTED with the reason as its comment,
   * never adds a step, and leaves the request REJECTED with the reason and no
   * approver.
   */
  lemma RejectOutcome(db: Db, id: int, u: UserId, reason: string, now: int)
    requires Valid(db)
    requires RejectSpec(db, id, u, reason, now).Ok?
    ensures var db' := RejectSpec(db, id, u, reason, now).value;
            var log := db.steps[id];
            var c := |log| - 1;
            && |db'.steps[id]| == |log| && log != []
            && db'.steps[id][c] == CloseStep(log[c], ActionRejected, Some(reason), now)
            && (forall j :: 0 <= j < c ==> db'.steps[id][j] == log[j])
            && (forall k :: k in db.steps && k != id ==> db'.steps[k] == db.steps[k] && db'.requests[k] == db.requests[k])
            && db'.requests[id].status == Rejected
            && db'.requests[id].rejectionReason == Some(reason)
            && db'.requests[id].currentApproverId.None?
  {
    assert ValidLog(db.requests[id], db.steps[id]);
    CurrentStepOfValidLog(db.requests[id], db.steps[id]);
  }

  /** Once a request is APPROVED or REJECTED no one can approve or reject it again. */
  lemma ProcessedIsTerminal(db: Db, d: Directory, id: int, u: UserId, comment: Option<string>, reason: string,
                            now: int, stepId: string)
    requires Valid(db) && id in db.requests && db.requests[id].status != Pending
    ensures ApproveSpec(db, d, id, u, comment, now, stepId).Err?
    ensures RejectSpec(db, id, u, reason, now).Err?
  {
    assert ValidLog(db.requests[id], db.steps[id]);
  }

  /** An academic-leave request whose deanery cannot be resolved is approved by its curator alone. */
  lemma AcademicLeaveWithoutDeanery(db: Db, d: Directory, id: int, u: UserId, comment: Option<string>, now: int, stepId: string)
    requires Valid(db) && id in db.requests
    requires db.requests[id].requestType == AcademicLeave && |db.steps[id]| == 1
    requires ApproveSpec(db, d, id, u, comment, now, stepId).Ok?
    requires FindStudent(d, db.requests[id].authorUserId).Some?
    requires FindStudent(d, db.requests[id].authorUserId).value.facultyId.Some?
    requires DeaneryStaffForFaculty(d, FindStudent(d, db.requests[id].authorUserId).value.facultyId.value).None?
    ensures ApproveSpec(db, d, id, u, comment, now, stepId).value.requests[id].status == Approved
  {
    ApproveOutcome(db, d, id, u, comment, now, stepId);
  }

  // ---------------------------------------------------------------------------
  // Read queries
  // ---------------------------------------------------------------------------

  /** The keys of a table in primary-key order within [lo, hi). */
  function KeysBetween(keys: set<int>, lo: int, hi: int): (r: seq<int>)
    decreases hi - lo
    ensures forall k :: k in r <==> lo <= k < hi && k in keys
    ensures forall i, j :: 0 <= i < j < |r| ==> r[i] < r[j]
  {
    if lo >= hi then []
    else
      var rest := KeysBetween(keys, lo + 1, hi);
      assert forall j :: 0 <= j < |rest| ==> lo < rest[j] by {
        forall j | 0 <= j < |rest| ensures lo < rest[j] { assert rest[j] in rest; }
      }
      (if lo in keys then [lo] else []) + rest
  }

  /** All request rows, in id order. */
  function Rows(db: Db): (r: seq<Request>)
    ensures forall i :: 0 <= i < |r| ==> r[i] in db.requests.Values
  {
    var ks := KeysBetween(db.requests.Keys, 1, db.nextId);
    seq(|ks|, i requires 0 <= i < |ks| => db.requests[ks[i]])
  }

  predicate DistinctIds(s: seq<Request>) {
    forall i, j :: 0 <= i < j < |s| ==> s[i].id != s[j].id
  }

  /** On a valid database every request appears exactly once among the rows. */
  lemma RowsOfValid(db: Db)
    requires WellKeyed(db)
    ensures forall i :: 0 <= i < |Rows(db)| ==> Rows(db)[i].id in db.requests && db.requests[Rows(db)[i].id] == Rows(db)[i]
    ensures forall k :: k in db.requests ==> db.requests[k] in Rows(db)
    ensures DistinctIds(Rows(db))
  {
    var ks := KeysBetween(db.requests.Keys, 1, db.nextId);
    var rows := Rows(db);
    assert forall i :: 0 <= i < |rows| ==> rows[i] == db.requests[ks[i]] && rows[i].id == ks[i];
    forall k | k in db.requests ensures db.requests[k] in rows {
      assert k in ks;
      var i :| 0 <= i < |ks| && ks[i] == k;
      assert rows[i] == db.requests[k];
    }
  }

  function NegCreated(r: Request): int { -r.createdAt }

  predicate NewestFirst(s: seq<Request>) {
    forall i, j :: 0 <= i < j < |s| ==> s[i].createdAt >= s[j].createdAt
  }

  lemma SortedByNegCreated(s: seq<Request>)
    requires SortedBy(s, NegCreated)
    ensures NewestFirst(s)
  {
    forall i, j | 0 <= i < j < |s| ensures s[i].createdAt >= s[j].createdAt {
      assert NegCreated(s[i]) <= NegCreated(s[j]);
    }
  }

  /** get_user_requests: the author's requests, newest first. */
  function UserRequests(db: Db, u: UserId): (r: seq<Request>)
    ensures forall x :: x in r <==> x in Rows(db) && x.authorUserId == u
    ensures NewestFirst(r)
  {
    var mine := Filter(Rows(db), (x: Request) => x.authorUserId == u);
    var r := SortBy(mine, NegCreated);
    SameMembers(mine, r);
    SortedByNegCreated(r);
    r
  }

  /** get_request_detail: visible only to the author and the current approver. */
  function RequestDetail(db: Db, id: int, u: UserId): (r: Option<Request>)
    ensures r.Some? <==> id in db.requests && (db.requests[id].authorUserId == u || db.requests[id].currentApproverId == Some(u))
    ensures r.Some? ==> r.value == db.requests[id]
  {
    if id !in db.requests then None
    else
      var req := db.requests[id];
      if req.authorUserId != u && req.currentApproverId != Some(u) then None else Some(req)
  }

  /** An approver loses sight of a request once they reject it, unless they are its author. */
  lemma RejectEndsApproverAccess(db: Db, id: int, u: UserId, reason: string, now: int)
    requires RejectSpec(db, id, u, reason, now).Ok?
    requires db.requests[id].authorUserId != u
    ensures RequestDetail(db, id, u).Some?
    ensures RequestDetail(RejectSpec(db, id, u, reason, now).value, id, u).None?
  {
  }

  predicate ByCurrentApprover(r: Request, u: UserId) {
    r.currentApproverId == Some(u) && r.status == Pending
  }

  predicate HasPendingStepFor(log: seq<ApprovalStep>, u: UserId) {
    exists j :: 0 <= j < |log| && log[j].approverUserId == Some(u) && log[j].action == ActionPending
  }

  predicate ByPendingStep(db: Db, r: Request, u: UserId) {
    r.status == Pending && HasPendingStepFor(Log(db, r.id), u)
  }

  /** What get_requests_for_approval selects: PENDING requests the user is current approver of or has a PENDING step in. */
  predicate AwaitsApproval(db: Db, r: Request, u: UserId) {
    ByCurrentApprover(r, u) || ByPendingStep(db, r, u)
  }

  /** On a valid database the step-based half of the query finds nothing the approver-based half misses. */
  lemma AwaitsApprovalOnValid(db: Db, k: int, u: UserId)
    requires Valid(db) && k in db.requests
    ensures AwaitsApproval(db, db.requests[k], u) <==> ByCurrentApprover(db.requests[k], u)
  {
    var req := db.requests[k];
    var log := db.steps[k];
    assert ValidLog(req, log);
    if ByPendingStep(db, req, u) {
      var j :| 0 <= j < |log| && log[j].approverUserId == Some(u) && log[j].action == ActionPending;
      assert j == |log| - 1;
    }
  }

  function IdsOf(s: seq<Request>): set<int> {
    set x | x in s :: x.id
  }

  lemma SameIdSameRow(rows: seq<Request>, x: Request, i: int)
    requires DistinctIds(rows) && 0 <= i < |rows| && x in rows && x.id == rows[i].id
    ensures x == rows[i]
  {
    var j :| 0 <= j < |rows| && rows[j] == x;
  }

  lemma DistinctIdsDistinct(s: seq<Request>)
    requires DistinctIds(s)
    ensures Distinct(s)
  {
  }

  /** Sorting newest first keeps exactly the selected requests, still one per id. */
  lemma SortKeepsSelection(all: seq<Request>, r: seq<Request>)
    requires DistinctIds(all) && r == SortBy(all, NegCreated)
    ensures forall x :: x in r <==> x in all
    ensures DistinctIds(r) && NewestFirst(r)
  {
    SortedByNegCreated(r);
    SameMembers(all, r);
    DistinctIdsDistinct(all);
    DistinctPermutation(all, r);
    forall a, b | 0 <= a < b < |r| ensures r[a].id != r[b].id {
      assert r[a] in all && r[b] in all;
    }
  }

  /** The selection, sorted newest first, is exactly the approval list. */
  lemma ApprovalListOrder(db: Db, u: UserId, all: seq<Request>, r: seq<Request>)
    requires WellKeyed(db) && DistinctIds(all) && r == SortBy(all, NegCreated)
    requires forall x :: x in all <==> x in Rows(db) && AwaitsApproval(db, x, u)
    ensures forall i :: 0 <= i < |r| ==> r[i].id in db.requests && db.requests[r[i].id] == r[i] && AwaitsApproval(db, r[i], u)
    ensures forall k :: k in db.requests && AwaitsApproval(db, db.requests[k], u) ==> db.requests[k] in r
    ensures DistinctIds(r) && NewestFirst(r)
  {
    RowsOfValid(db);
    SortKeepsSelection(all, r);
    forall i | 0 <= i < |r| ensures r[i].id in db.requests && db.requests[r[i].id] == r[i] && AwaitsApproval(db, r[i], u) {
      assert r[i] in all;
    }
  }

  /**
   * Merging rows into a dict keyed by id: rows that pass keep and whose id
   * is not there yet are added at the end, so the result holds one request
   * per id.
   */
  method MergeById(all: seq<Request>, seen: set<int>, rows: seq<Request>, keep: Request -> bool)
    returns (all': seq<Request>, seen': set<int>)
    requires DistinctIds(rows) && seen == IdsOf(all) && DistinctIds(all)
    requires forall x :: x in all ==> x in rows
    ensures seen' == IdsOf(all') && DistinctIds(all')
    ensures forall x :: x in all' <==> x in all || (x in rows && keep(x))
  {
    all', seen' := all, seen;
    for i := 0 to |rows|
      invariant seen' == IdsOf(all') && DistinctIds(all')
      invariant forall x :: x in all' <==> x in all || (x in rows[..i] && keep(x))
      invariant forall x :: x in all' ==> x in rows
    {
      assert rows[..i + 1] == rows[..i] + [rows[i]];
      if keep(rows[i]) && rows[i].id !in seen' {
        all' := all' + [rows[i]];
        seen' := seen' + {rows[i].id};
      } else if keep(rows[i]) {
        var x :| x in all' && x.id == rows[i].id;
        SameIdSameRow(rows, x, i);
      }
    }
    assert rows[..|rows|] == rows;
  }

  // ---------------------------------------------------------------------------
  // The mutable store
  // ---------------------------------------------------------------------------

  class RequestStore {
    var requests: map<int, Request>
    var steps: map<int, seq<ApprovalStep>>
    var nextId: int

    function State(): Db
      reads this
    {
      Db(requests, steps, nextId)
    }

    constructor()
      ensures State() == EmptyDb() && Valid(State())
    {
      requests := map[];
      steps := map[];
      nextId := 1;
    }

    method Create(d: Directory, t: RequestType, content: Option<string>, author: UserId, now: int, stepId: string)
      returns (r: Request)
      modifies this
      ensures (State(), r) == CreateSpec(old(State()), d, t, content, author, now, stepId)
    {
      var approver: Option<UserId> := None;
      var status := Pending;
      if t == StudentCertificate {
        status := Approved;
      } else {
        approver := FirstApprover(d, t, author);
      }
      r := NewRequest(nextId, t, author, content, Some(status), approver, now);
      requests := requests[nextId := r];
      var log: seq<ApprovalStep> := [];
      if status == Pending && approver.Some? {
        log := [NewStep(stepId, nextId, 1, approver, Some(FirstStepRole(t)), now)];
      }
      steps := steps[nextId := log];
      nextId := nextId + 1;
    }

    method Approve(d: Directory, id: int, approver: UserId, comment: Option<string>, now: int, stepId: string)
      returns (r: Result<Request>)
      modifies this
      ensures ApproveSpec(old(State()), d, id, approver, comment, now, stepId).Err? ==>
              State() == old(State()) && r == Err(ApproveSpec(old(State()), d, id, approver, comment, now, stepId).error)
      ensures ApproveSpec(old(State()), d, id, approver, comment, now, stepId).Ok? ==>
              State() == ApproveSpec(old(State()), d, id, approver, comment, now, stepId).value && r == Ok(requests[id])
    {
      if id !in requests {
        return Err(ErrNotFound);
      }
      var req := requests[id];
      if req.currentApproverId != Some(approver) {
        return Err(ErrNotCurrentApprover);
      }
      if req.status != Pending {
        return Err(ErrAlreadyProcessed);
      }
      var log := Log(State(), id);
      var cur := CurrentStep(log);
      var approvedOrder: Option<int> := None;
      var order := 1;
      if cur.Some? {
        approvedOrder := Some(log[cur.value].stepOrder);
        order := log[cur.value].stepOrder + 1;
        log := log[cur.value := CloseStep(log[cur.value], ActionApproved, comment, now)];
      }
      var next := NextApprover(d, req, approvedOrder);
      if next.Some? {
        log := log + [NewStep(stepId, req.id, order, Some(next.value.0), Some(next.value.1), now)];
        req := req.(currentApproverId := Some(next.value.0), status := Pending, updatedAt := now);
      } else {
        req := req.(status := Approved, currentApproverId := None, updatedAt := now);
      }
      steps := steps[id := log];
      requests := requests[id := req];
      r := Ok(req);
    }

    method Reject(id: int, approver: UserId, reason: string, now: int) returns (r: Result<Request>)
      modifies this
      ensures RejectSpec(old(State()), id, approver, reason, now).Err? ==>
              State() == old(State()) && r == Err(RejectSpec(old(State()), id, approver, reason, now).error)
      ensures RejectSpec(old(State()), id, approver, reason, now).Ok? ==>
              State() == RejectSpec(old(State()), id, approver, reason, now).value && r == Ok(requests[id])
    {
      if id !in requests {
        return Err(ErrNotFound);
      }
      var req := requests[id];
      if req.currentApproverId != Some(approver) {
        return Err(ErrNotCurrentApprover);
      }
      if req.status != Pending {
        return Err(ErrAlreadyProcessed);
      }
      var log := Log(State(), id);
      var cur := CurrentStep(log);
      if cur.Some? {
        log := log[cur.value := CloseStep(log[cur.value], ActionRejected, Some(reason), now)];
      }
      steps := steps[id := log];
      req := req.(status := Rejected, rejectionReason := Some(reason), currentApproverId := None, updatedAt := now);
      requests := requests[id := req];
      r := Ok(req);
    }

    /**
     * get_requests_for_approval: the requests found through the current
     * approver, merged by id with those found through a PENDING step, newest
     * first.
     */
    method ForApproval(u: UserId) returns (r: seq<Request>)
      requires WellKeyed(State())
      ensures forall i :: 0 <= i < |r| ==> r[i].id in requests && requests[r[i].id] == r[i] && AwaitsApproval(State(), r[i], u)
      ensures forall k :: k in requests && AwaitsApproval(State(), requests[k], u) ==> requests[k] in r
      ensures DistinctIds(r)
      ensures NewestFirst(r)
    {
      var db := State();
      var rows := Rows(db);
      RowsOfValid(db);
      var all, seen := MergeById([], {}, rows, (x: Request) => ByCurrentApprover(x, u));
      all, seen := MergeById(all, seen, rows, (x: Request) => ByPendingStep(db, x, u));
      r := SortBy(all, NegCreated);
      ApprovalListOrder(db, u, all, r);
    }
  }
}
