/*
 * Self-registration from the messenger bot.  A registration never creates a
 * person: it checks the university, the city and the messenger id, then
 * confirms the applicant against the dean's-office records (name and city
 * must match) and binds the messenger id to the user found there.
 */
module RegistrationService {
  import opened Common
  import opened UserService

  const MsgVerified := "Успешная верификация"
  const MsgMismatch := "Данные не совпадают с данными в базе деканата. Обратитесь в администрацию вашего вуза"
  const ErrUniversityNotFound := "Университет не найден"
  const ErrStudentFields := "Для студента необходимо указать факультет, группу и номер студенческого билета"
  const ErrFacultyNotFound := "Факультет не найден"
  const ErrGroupNotFound := "Группа не найдена"
  const ErrCardTaken := "Студент с таким номером студенческого билета уже зарегистрирован"
  const ErrStaffFields := "Для преподавателя/сотрудника необходимо указать кафедру/отдел и табельный номер"
  const ErrKafedraNotFound := "Кафедра/отдел не найдена"
  const ErrTabTaken := "Пользователь с таким табельным номером уже зарегистрирован"

  function MsgVerifyUnsupported(r: Role): string {
    "Верификация для роли " + RoleValue(r) + " не поддерживается"
  }

  function ErrCityMismatch(city: string): string {
    "Город не совпадает с городом университета. Ожидается: " + city
  }

  function ErrMaxIdTaken(maxId: int): string {
    "Пользователь с max_id=" + IntToString(maxId) + " уже зарегистрирован"
  }

  function ErrRoleUnsupported(r: Role): string {
    "Регистрация для роли " + RoleValue(r) + " не поддерживается"
  }

  // ---------------------------------------------------------------- lookups

  /** The dean's-office person behind a staff tab number: a staff record first, a teacher record only when there is none. */
  function StaffOrTeacher(db: Accounts, tab: string): Option<UserId> {
    if StaffByTab(db, tab).Some? then Some(StaffByTab(db, tab).value.userId)
    else if TeacherByTab(db, tab).Some? then Some(TeacherByTab(db, tab).value.userId)
    else None
  }

  lemma StaffOrTeacherLinked(db: Accounts, tab: string)
    requires Linked(db) && StaffOrTeacher(db, tab).Some?
    ensures FindUser(db.users, StaffOrTeacher(db, tab).value).Some?
  {
    if StaffByTab(db, tab).Some? {
      StaffLinked(db, tab);
    } else {
      TeacherLinked(db, tab);
    }
  }

  function UserWithMaxId(db: Accounts, maxId: int): (r: Option<Account>)
    ensures r.None? <==> forall i :: 0 <= i < |db.users| ==> db.users[i].maxId != Some(maxId)
  {
    FirstWhere(db.users, (a: Account) => a.maxId == Some(maxId))
  }

  function FacultyIn(db: Accounts, facultyId: int, universityId: int): Option<FacultyRow> {
    FirstWhere(db.faculties, (f: FacultyRow) => f.id == facultyId && f.universityId == universityId)
  }

  function GroupIn(db: Accounts, groupId: int, facultyId: int): Option<GroupRow> {
    FirstWhere(db.groups, (g: GroupRow) => g.id == groupId && g.facultyId == facultyId)
  }

  /** A department of the given id under some faculty of the university. */
  function KafedraIn(db: Accounts, kafedraId: int, universityId: int): Option<KafedraRow> {
    FirstWhere(db.kafedras, (k: KafedraRow) => k.id == kafedraId && FacultyIn(db, k.facultyId, universityId).Some?)
  }

  // ------------------------------------------ verify_user_after_registration

  /** Confirm the found user by name and city, then bind the messenger id when one is given. */
  function Confirm(db: Accounts, userId: UserId, req: VerificationRequest, maxId: Option<int>): (Accounts, Verification)
    requires FindUser(db.users, userId).Some?
  {
    var i := FindUser(db.users, userId).value;
    if db.users[i].fullName != req.fullName || db.users[i].city != req.city then (db, Failure(MsgMismatch))
    else
      var db' := Bind(db, i, maxId);
      (db', Verification(true, MsgVerified, Some(userId), db'.users[i].maxId))
  }

  /** The person verification after registration looks at; it reads the request's identifier only. */
  function AfterPerson(db: Accounts, req: VerificationRequest): Option<UserId> {
    if req.role == StudentRole && Truthy(req.studentCard) && StudentByCard(db, req.studentCard.value).Some? then
      Some(StudentByCard(db, req.studentCard.value).value.userId)
    else if req.role == StaffRole && Truthy(req.tabNumber) then StaffOrTeacher(db, req.tabNumber.value)
    else None
  }

  lemma AfterPersonLinked(db: Accounts, req: VerificationRequest)
    requires Linked(db) && AfterPerson(db, req).Some?
    ensures FindUser(db.users, AfterPerson(db, req).value).Some?
  {
    if req.role == StudentRole {
      StudentLinked(db, req.studentCard.value);
    } else {
      StaffOrTeacherLinked(db, req.tabNumber.value);
    }
  }

  /**
   * verify_user_after_registration; the messenger id bound is the separate
   * `maxId` argument, not the one inside the request.
   */
  function VerifyAfterSpec(db: Accounts, req: VerificationRequest, maxId: Option<int>): (Accounts, Verification)
    requires Linked(db)
  {
    if req.role == AdminRole then (db, Failure(MsgVerifyUnsupported(req.role)))
    else if req.role == StudentRole && !Truthy(req.studentCard) then (db, Failure(MsgCardRequired))
    else if req.role == StaffRole && !Truthy(req.tabNumber) then (db, Failure(MsgTabRequired))
    else if AfterPerson(db, req).None? then (db, Failure(MsgNotFound))
    else
      AfterPersonLinked(db, req);
      Confirm(db, AfterPerson(db, req).value, req, maxId)
  }

  /** The found user whose name and city match the request's. */
  predicate Confirmed(db: Accounts, req: VerificationRequest)
    requires Linked(db)
  {
    AfterPerson(db, req).Some? &&
    (AfterPersonLinked(db, req);
     var u := db.users[FindUser(db.users, AfterPerson(db, req).value).value];
     u.fullName == req.fullName && u.city == req.city)
  }

  /**
   * Verification after registration succeeds exactly when it finds a person
   * whose name and city match; success binds `maxId` to that user alone and
   * reports it; failure changes nothing.
   */
  lemma VerifyAfterOutcome(db: Accounts, req: VerificationRequest, maxId: Option<int>)
    requires Linked(db)
    ensures var (db', v) := VerifyAfterSpec(db, req, maxId);
            && (v.success <==> Confirmed(db, req))
            && (!v.success ==> db' == db && v.userId.None?)
            && (v.success ==>
                  && AfterPerson(db, req).Some? && FindUser(db.users, AfterPerson(db, req).value).Some?
                  && var i := FindUser(db.users, AfterPerson(db, req).value).value;
                  && v.userId == AfterPerson(db, req)
                  && |db'.users| == |db.users|
                  && db'.users[i].maxId == (if maxId.Some? then maxId else db.users[i].maxId)
                  && v.maxId == db'.users[i].maxId
                  && (forall k :: 0 <= k < |db.users| && k != i ==> db'.users[k] == db.users[k])
                  && db'.students == db.students && db'.teachers == db.teachers && db'.staff == db.staff)
            && Linked(db')
  {
    if req.role != AdminRole && !(req.role == StudentRole && !Truthy(req.studentCard))
       && !(req.role == StaffRole && !Truthy(req.tabNumber)) && AfterPerson(db, req).Some?
    {
      AfterPersonLinked(db, req);
      var u := AfterPerson(db, req).value;
      assert VerifyAfterSpec(db, req, maxId) == Confirm(db, u, req, maxId);
      ConfirmOutcome(db, u, req, maxId);
      BindShape(db, FindUser(db.users, u).value, maxId);
    }
  }

  lemma ConfirmOutcome(db: Accounts, userId: UserId, req: VerificationRequest, maxId: Option<int>)
    requires Linked(db) && FindUser(db.users, userId).Some?
    ensures var (db', v) := Confirm(db, userId, req, maxId);
            var i := FindUser(db.users, userId).value;
            && (v.success <==> db.users[i].fullName == req.fullName && db.users[i].city == req.city)
            && (!v.success ==> db' == db && v.userId.None?)
            && (v.success ==> v.userId == Some(userId) && db' == Bind(db, i, maxId) && v.maxId == db'.users[i].maxId)
            && Linked(db')
  {
    BindKeepsLinks(db, FindUser(db.users, userId).value, maxId);
  }

  /** A staff number with both a staff and a teacher record verifies as the staff member. */
  lemma StaffRecordWins(db: Accounts, req: VerificationRequest, maxId: Option<int>)
    requires Linked(db) && req.role == StaffRole && Truthy(req.tabNumber) && StaffByTab(db, req.tabNumber.value).Some?
    ensures AfterPerson(db, req) == Some(StaffByTab(db, req.tabNumber.value).value.userId)
  {
  }

  /**
   * For a student the check after registration is stricter than verify_user:
   * whenever it succeeds, verify_user with the same request succeeds with the
   * same user and leaves the same tables.
   */
  lemma {:induction false} StudentAfterImpliesVerify(db: Accounts, req: VerificationRequest)
    requires Linked(db) && req.role == StudentRole
    ensures VerifyAfterSpec(db, req, req.maxId).1.success ==>
              && VerifySpec(db, req).1.success
              && VerifySpec(db, req).1.userId == VerifyAfterSpec(db, req, req.maxId).1.userId
              && VerifySpec(db, req).0 == VerifyAfterSpec(db, req, req.maxId).0
  {
    if VerifyAfterSpec(db, req, req.maxId).1.success {
      StudentLinked(db, req.studentCard.value);
      var s := StudentByCard(db, req.studentCard.value).value;
      assert AfterPerson(db, req) == Some(s.userId);
      assert VerifySpec(db, req) == Verified(db, s.userId, req.maxId);
      assert VerifyAfterSpec(db, req, req.maxId).0 == Bind(db, FindUser(db.users, s.userId).value, req.maxId);
    }
  }

  // ------------------------------------------------------------ register_user

  /** A registration request from the bot; the messenger id is always present. */
  datatype RegistrationRequest = RegistrationRequest(
    maxId: int,
    role: Role,
    fullName: string,
    city: string,
    universityId: int,
    facultyId: Option<int>,
    groupId: Option<int>,
    studentCard: Option<string>,
    kafedraId: Option<int>,
    tabNumber: Option<string>)

  function StudentCheck(data: RegistrationRequest): VerificationRequest {
    VerificationRequest(Some(data.maxId), StudentRole, data.fullName, data.studentCard, None, data.city)
  }

  function StaffCheck(data: RegistrationRequest): VerificationRequest {
    VerificationRequest(Some(data.maxId), StaffRole, data.fullName, None, data.tabNumber, data.city)
  }

  /**
   * After a successful check: bind the messenger id to the confirmed user
   * and return that user.  `fallback` is what the source does when no such
   * user can be loaded.
   */
  function Adopt(db: Accounts, v: Verification, maxId: int, fallback: (Accounts, Result<Account>)): (Accounts, Result<Account>) {
    if v.userId.Some? && FindUser(db.users, v.userId.value).Some? then
      var i := FindUser(db.users, v.userId.value).value;
      var db' := Bind(db, i, Some(maxId));
      (db', Ok(db'.users[i]))
    else fallback
  }

  /** The source's path for a confirmed student it cannot load: refuse a known card, else create user and student. */
  function NewStudent(db: Accounts, data: RegistrationRequest, newUserId: UserId): (Accounts, Result<Account>)
    requires data.facultyId.Some? && data.groupId.Some? && data.studentCard.Some?
  {
    if StudentByCard(db, data.studentCard.value).Some? then (db, Err(ErrCardTaken))
    else
      var u := Account(newUserId, Some(data.maxId), StudentRole, data.fullName, data.city, Some(data.universityId));
      (db.(users := db.users + [u],
           students := db.students + [StudentRow(newUserId, data.facultyId.value, data.groupId.value, data.studentCard.value)]),
       Ok(u))
  }

  /** The source's path for a confirmed employee it cannot load: refuse a known tab number, else create user and teacher. */
  function NewTeacher(db: Accounts, data: RegistrationRequest, newUserId: UserId): (Accounts, Result<Account>)
    requires data.kafedraId.Some? && data.tabNumber.Some?
  {
    if TeacherByTab(db, data.tabNumber.value).Some? || StaffByTab(db, data.tabNumber.value).Some? then (db, Err(ErrTabTaken))
    else
      var u := Account(newUserId, Some(data.maxId), StaffRole, data.fullName, data.city, Some(data.universityId));
      (db.(users := db.users + [u],
           teachers := db.teachers + [TeacherRow(newUserId, data.kafedraId.value, data.tabNumber.value)]),
       Ok(u))
  }

  function RegisterStudent(db: Accounts, data: RegistrationRequest, newUserId: UserId): (Accounts, Result<Account>)
    requires Linked(db)
  {
    if data.facultyId.None? || data.groupId.None? || !Truthy(data.studentCard) then (db, Err(ErrStudentFields))
    else if FacultyIn(db, data.facultyId.value, data.universityId).None? then (db, Err(ErrFacultyNotFound))
    else if GroupIn(db, data.groupId.value, data.facultyId.value).None? then (db, Err(ErrGroupNotFound))
    else
      var (db1, v) := VerifyAfterSpec(db, StudentCheck(data), Some(data.maxId));
      if !v.success then (db1, Err(v.message))
      else Adopt(db1, v, data.maxId, NewStudent(db1, data, newUserId))
  }

  function RegisterStaff(db: Accounts, data: RegistrationRequest, newUserId: UserId): (Accounts, Result<Account>)
    requires Linked(db)
  {
    if data.kafedraId.None? || !Truthy(data.tabNumber) then (db, Err(ErrStaffFields))
    else if KafedraIn(db, data.kafedraId.value, data.universityId).None? then (db, Err(ErrKafedraNotFound))
    else
      var (db1, v) := VerifyAfterSpec(db, StaffCheck(data), Some(data.maxId));
      if !v.success then (db1, Err(v.message))
      else Adopt(db1, v, data.maxId, NewTeacher(db1, data, newUserId))
  }

  /**
   * register_user: the tables afterwards and the registered user or the
   * error.  `newUserId` is the identifier a new user row would receive.
   */
  function RegisterSpec(db: Accounts, data: RegistrationRequest, newUserId: UserId): (Accounts, Result<Account>)
    requires Linked(db)
  {
    var univ := UniversityById(db, data.universityId);
    if univ.None? then (db, Err(ErrUniversityNotFound))
    else if univ.value.city != data.city then (db, Err(ErrCityMismatch(univ.value.city)))
    else if UserWithMaxId(db, data.maxId).Some? then (db, Err(ErrMaxIdTaken(data.maxId)))
    else
      match data.role
      case StudentRole => RegisterStudent(db, data, newUserId)
      case StaffRole => RegisterStaff(db, data, newUserId)
      case AdminRole => (db, Err(ErrRoleUnsupported(data.role)))
  }

  /** The identifying part of a registration request: the student card or the tab number. */
  function CheckOf(data: RegistrationRequest): VerificationRequest {
    if data.role == StudentRole then StudentCheck(data) else StaffCheck(data)
  }

  /** When registration succeeds: the rules a request has to meet, stated without the error texts. */
  predicate Registrable(db: Accounts, data: RegistrationRequest)
    requires Linked(db)
  {
    && PassesCommonGuards(db, data)
    && (data.role == StudentRole ==>
          && data.facultyId.Some? && data.groupId.Some? && Truthy(data.studentCard)
          && FacultyIn(db, data.facultyId.value, data.universityId).Some?
          && GroupIn(db, data.groupId.value, data.facultyId.value).Some?)
    && (data.role == StaffRole ==>
          && data.kafedraId.Some? && Truthy(data.tabNumber)
          && KafedraIn(db, data.kafedraId.value, data.universityId).Some?)
    && data.role != AdminRole
    && Confirmed(db, CheckOf(data))
  }

  /** Once the check has bound the messenger id to user i, adopting loads user i and changes nothing further. */
  lemma AdoptBound(db: Accounts, i: nat, v: Verification, maxId: int, fallback: (Accounts, Result<Account>))
    requires i < |db.users| && v.userId.Some? && FindUser(db.users, v.userId.value) == Some(i)
    ensures Adopt(Bind(db, i, Some(maxId)), v, maxId, fallback) == (Bind(db, i, Some(maxId)), Ok(Bind(db, i, Some(maxId)).users[i]))
  {
    var db1 := Bind(db, i, Some(maxId));
    assert forall k :: 0 <= k < |db1.users| ==> db1.users[k].id == db.users[k].id;
    assert FindUser(db1.users, v.userId.value) == Some(i);
    assert Bind(db1, i, Some(maxId)) == db1;
  }

  /** `db'` is `db` with the messenger id bound to the confirmed user, and `u` is that user's row afterwards. */
  predicate RegisteredAs(db: Accounts, data: RegistrationRequest, db': Accounts, u: Account) {
    && AfterPerson(db, CheckOf(data)).Some? && FindUser(db.users, AfterPerson(db, CheckOf(data)).value).Some?
    && var i := FindUser(db.users, AfterPerson(db, CheckOf(data)).value).value;
    && db' == Bind(db, i, Some(data.maxId)) && u == db'.users[i]
  }

  /** The guards every role passes first: a known university in the applicant's city and an unused messenger id. */
  predicate PassesCommonGuards(db: Accounts, data: RegistrationRequest) {
    && UniversityById(db, data.universityId).Some?
    && UniversityById(db, data.universityId).value.city == data.city
    && UserWithMaxId(db, data.maxId).None?
  }

  /** The outcome of a check that passed, for either role. */
  lemma {:induction false} CheckedOutcome(db: Accounts, data: RegistrationRequest, fallback: (Accounts, Result<Account>))
    requires Linked(db) && data.role != AdminRole
    ensures var (db1, v) := VerifyAfterSpec(db, CheckOf(data), Some(data.maxId));
            var (db', r) := if !v.success then (db1, Err(v.message)) else Adopt(db1, v, data.maxId, fallback);
            && (r.Ok? <==> Confirmed(db, CheckOf(data)))
            && (r.Err? ==> db' == db)
            && (r.Ok? ==> RegisteredAs(db, data, db', r.value))
  {
    var req := CheckOf(data);
    var m := Some(data.maxId);
    VerifyAfterOutcome(db, req, m);
    var (db1, v) := VerifyAfterSpec(db, req, m);
    if v.success {
      var i := FindUser(db.users, v.userId.value).value;
      ConfirmOutcome(db, v.userId.value, req, m);
      AdoptBound(db, i, v, data.maxId, fallback);
    }
  }

  lemma RegisterStudentOutcome(db: Accounts, data: RegistrationRequest, newUserId: UserId)
    requires Linked(db) && data.role == StudentRole
    ensures var (db', r) := RegisterStudent(db, data, newUserId);
            && (r.Ok? <==> data.facultyId.Some? && data.groupId.Some? && Truthy(data.studentCard)
                           && FacultyIn(db, data.facultyId.value, data.universityId).Some?
                           && GroupIn(db, data.groupId.value, data.facultyId.value).Some?
                           && Confirmed(db, CheckOf(data)))
            && (r.Err? ==> db' == db)
            && (r.Ok? ==> RegisteredAs(db, data, db', r.value))
  {
    if data.facultyId.Some? && data.groupId.Some? && Truthy(data.studentCard)
       && FacultyIn(db, data.facultyId.value, data.universityId).Some?
       && GroupIn(db, data.groupId.value, data.facultyId.value).Some?
    {
      var (db1, v) := VerifyAfterSpec(db, CheckOf(data), Some(data.maxId));
      var fallback := NewStudent(db1, data, newUserId);
      assert RegisterStudent(db, data, newUserId) == if !v.success then (db1, Err(v.message)) else Adopt(db1, v, data.maxId, fallback);
      CheckedOutcome(db, data, fallback);
    }
  }

  lemma RegisterStaffOutcome(db: Accounts, data: RegistrationRequest, newUserId: UserId)
    requires Linked(db) && data.role == StaffRole
    ensures var (db', r) := RegisterStaff(db, data, newUserId);
            && (r.Ok? <==> data.kafedraId.Some? && Truthy(data.tabNumber)
                           && KafedraIn(db, data.kafedraId.value, data.universityId).Some?
                           && Confirmed(db, CheckOf(data)))
            && (r.Err? ==> db' == db)
            && (r.Ok? ==> RegisteredAs(db, data, db', r.value))
  {
    if data.kafedraId.Some? && Truthy(data.tabNumber) && KafedraIn(db, data.kafedraId.value, data.universityId).Some? {
      var (db1, v) := VerifyAfterSpec(db, CheckOf(data), Some(data.maxId));
      var fallback := NewTeacher(db1, data, newUserId);
      assert RegisterStaff(db, data, newUserId) == if !v.success then (db1, Err(v.message)) else Adopt(db1, v, data.maxId, fallback);
      CheckedOutcome(db, data, fallback);
    }
  }

  /** What a registration leaves: the confirmed user alone holds the new messenger id, with its name and city as requested. */
  lemma RegisteredAsShape(db: Accounts, data: RegistrationRequest, db': Accounts, u: Account)
    requires Linked(db) && RegisteredAs(db, data, db', u) && Confirmed(db, CheckOf(data))
    ensures var i := FindUser(db.users, AfterPerson(db, CheckOf(data)).value).value;
            && u == db.users[i].(maxId := Some(data.maxId))
            && u.fullName == data.fullName && u.city == data.city
            && |db'.users| == |db.users| && db'.users[i] == u
            && (forall k :: 0 <= k < |db.users| && k != i ==> db'.users[k] == db.users[k])
            && db' == db.(users := db'.users)
            && Linked(db')
  {
    var i := FindUser(db.users, AfterPerson(db, CheckOf(data)).value).value;
    BindShape(db, i, Some(data.maxId));
    BindKeepsLinks(db, i, Some(data.maxId));
  }

  /**
   * Registration succeeds exactly for a registrable request.  It then
   * returns the dean's-office user confirmed by card or tab number, now
   * holding the messenger id, creates no user and touches no other row;
   * an error leaves every table as it was.
   */
  lemma RegisterOutcome(db: Accounts, data: RegistrationRequest, newUserId: UserId)
    requires Linked(db)
    ensures var (db', r) := RegisterSpec(db, data, newUserId);
            && (r.Ok? <==> Registrable(db, data))
            && (r.Err? ==> db' == db)
            && (r.Ok? ==> RegisteredAs(db, data, db', r.value))
  {
    if PassesCommonGuards(db, data) {
      if data.role == StudentRole {
        RegisterStudentOutcome(db, data, newUserId);
        assert RegisterSpec(db, data, newUserId) == RegisterStudent(db, data, newUserId);
      } else if data.role == StaffRole {
        RegisterStaffOutcome(db, data, newUserId);
        assert RegisterSpec(db, data, newUserId) == RegisterStaff(db, data, newUserId);
      }
    }
  }

  /** No two users hold the same messenger id. */
  predicate MaxIdsUnique(db: Accounts) {
    forall i, j :: 0 <= i < j < |db.users| && db.users[i].maxId.Some? ==> db.users[i].maxId != db.users[j].maxId
  }

  /** Registration refuses a messenger id already held, so it keeps messenger ids unique. */
  lemma RegisterKeepsMaxIdsUnique(db: Accounts, data: RegistrationRequest, newUserId: UserId)
    requires Linked(db) && MaxIdsUnique(db)
    ensures MaxIdsUnique(RegisterSpec(db, data, newUserId).0)
    ensures Linked(RegisterSpec(db, data, newUserId).0)
  {
    RegisterOutcome(db, data, newUserId);
    var (db', r) := RegisterSpec(db, data, newUserId);
    if r.Ok? {
      RegisteredAsShape(db, data, db', r.value);
      var i := FindUser(db.users, AfterPerson(db, CheckOf(data)).value).value;
      assert UserWithMaxId(db, data.maxId).None?;
      forall a, b | 0 <= a < b < |db'.users| && db'.users[a].maxId.Some?
        ensures db'.users[a].maxId != db'.users[b].maxId
      {
        if a != i && b != i {
          assert db'.users[a] == db.users[a] && db'.users[b] == db.users[b];
        }
      }
    }
  }

  // ------------------------------------------------------------ the service

  /** verify_user_after_registration on the stored tables. */
  method VerifyAfter(store: AccountStore, req: VerificationRequest, maxId: Option<int>) returns (v: Verification)
    requires Linked(store.State())
    modifies store
    ensures (store.State(), v) == VerifyAfterSpec(old(store.State()), req, maxId)
  {
    if req.role == AdminRole {
      return Failure(MsgVerifyUnsupported(req.role));
    } else if req.role == StudentRole && !Truthy(req.studentCard) {
      return Failure(MsgCardRequired);
    } else if req.role == StaffRole && !Truthy(req.tabNumber) {
      return Failure(MsgTabRequired);
    }
    var person := AfterPerson(store.State(), req);
    if person.None? {
      return Failure(MsgNotFound);
    }
    AfterPersonLinked(store.State(), req);
    var i := FindUser(store.users, person.value).value;
    if store.users[i].fullName != req.fullName || store.users[i].city != req.city {
      return Failure(MsgMismatch);
    }
    store.BindMaxId(i, maxId);
    return Verification(true, MsgVerified, person, store.users[i].maxId);
  }

  /** register_user on the stored tables; the access token issued for the user is not modelled. */
  method Register(store: AccountStore, data: RegistrationRequest, newUserId: UserId) returns (r: Result<Account>)
    requires Linked(store.State())
    modifies store
    ensures (store.State(), r) == RegisterSpec(old(store.State()), data, newUserId)
  {
    var univ := UniversityById(store.State(), data.universityId);
    if univ.None? {
      return Err(ErrUniversityNotFound);
    }
    if univ.value.city != data.city {
      return Err(ErrCityMismatch(univ.value.city));
    }
    if UserWithMaxId(store.State(), data.maxId).Some? {
      return Err(ErrMaxIdTaken(data.maxId));
    }
    if data.role == StudentRole {
      r := RegisterStudentIn(store, data, newUserId);
    } else if data.role == StaffRole {
      r := RegisterStaffIn(store, data, newUserId);
    } else {
      r := Err(ErrRoleUnsupported(data.role));
    }
  }

  /** After the check: load the confirmed user and give it the messenger id. */
  method AdoptIn(store: AccountStore, v: Verification, maxId: int) returns (found: bool, r: Result<Account>)
    modifies store
    ensures found == (v.userId.Some? && FindUser(old(store.State()).users, v.userId.value).Some?)
    ensures found ==> var i := FindUser(old(store.State()).users, v.userId.value).value;
                      store.State() == Bind(old(store.State()), i, Some(maxId)) && r == Ok(store.users[i])
    ensures !found ==> store.State() == old(store.State())
  {
    if v.userId.None? {
      return false, Err("");
    }
    var i := FindUser(store.users, v.userId.value);
    if i.None? {
      return false, Err("");
    }
    store.BindMaxId(i.value, Some(maxId));
    return true, Ok(store.users[i.value]);
  }

  method RegisterStudentIn(store: AccountStore, data: RegistrationRequest, newUserId: UserId) returns (r: Result<Account>)
    requires Linked(store.State())
    modifies store
    ensures (store.State(), r) == RegisterStudent(old(store.State()), data, newUserId)
  {
    if data.facultyId.None? || data.groupId.None? || !Truthy(data.studentCard) {
      return Err(ErrStudentFields);
    }
    if FacultyIn(store.State(), data.facultyId.value, data.universityId).None? {
      return Err(ErrFacultyNotFound);
    }
    if GroupIn(store.State(), data.groupId.value, data.facultyId.value).None? {
      return Err(ErrGroupNotFound);
    }
    ghost var db0 := store.State();
    var v := VerifyAfter(store, StudentCheck(data), Some(data.maxId));
    ghost var db1 := store.State();
    assert RegisterStudent(db0, data, newUserId) == if !v.success then (db1, Err(v.message)) else Adopt(db1, v, data.maxId, NewStudent(db1, data, newUserId));
    if !v.success {
      return Err(v.message);
    }
    var found;
    found, r := AdoptIn(store, v, data.maxId);
    if found {
      return;
    }
    r := CreateStudent(store, data, newUserId);
  }

  /** The source's path for a confirmed student it cannot load. */
  method CreateStudent(store: AccountStore, data: RegistrationRequest, newUserId: UserId) returns (r: Result<Account>)
    requires data.facultyId.Some? && data.groupId.Some? && data.studentCard.Some?
    modifies store
    ensures (store.State(), r) == NewStudent(old(store.State()), data, newUserId)
  {
    if StudentByCard(store.State(), data.studentCard.value).Some? {
      return Err(ErrCardTaken);
    }
    var u := Account(newUserId, Some(data.maxId), StudentRole, data.fullName, data.city, Some(data.universityId));
    store.users := store.users + [u];
    store.students := store.students + [StudentRow(newUserId, data.facultyId.value, data.groupId.value, data.studentCard.value)];
    return Ok(u);
  }

  method RegisterStaffIn(store: AccountStore, data: RegistrationRequest, newUserId: UserId) returns (r: Result<Account>)
    requires Linked(store.State())
    modifies store
    ensures (store.State(), r) == RegisterStaff(old(store.State()), data, newUserId)
  {
    if data.kafedraId.None? || !Truthy(data.tabNumber) {
      return Err(ErrStaffFields);
    }
    if KafedraIn(store.State(), data.kafedraId.value, data.universityId).None? {
      return Err(ErrKafedraNotFound);
    }
    ghost var db0 := store.State();
    var v := VerifyAfter(store, StaffCheck(data), Some(data.maxId));
    ghost var db1 := store.State();
    assert RegisterStaff(db0, data, newUserId) == if !v.success then (db1, Err(v.message)) else Adopt(db1, v, data.maxId, NewTeacher(db1, data, newUserId));
    if !v.success {
      return Err(v.message);
    }
    var found;
    found, r := AdoptIn(store, v, data.maxId);
    if found {
      return;
    }
    r := CreateTeacher(store, data, newUserId);
  }

  /** The source's path for a confirmed employee it cannot load. */
  method CreateTeacher(store: AccountStore, data: RegistrationRequest, newUserId: UserId) returns (r: Result<Account>)
    requires data.kafedraId.Some? && data.tabNumber.Some?
    modifies store
    ensures (store.State(), r) == NewTeacher(old(store.State()), data, newUserId)
  {
    if TeacherByTab(store.State(), data.tabNumber.value).Some? || StaffByTab(store.State(), data.tabNumber.value).Some? {
      return Err(ErrTabTaken);
    }
    var u := Account(newUserId, Some(data.maxId), StaffRole, data.fullName, data.city, Some(data.universityId));
    store.users := store.users + [u];
    store.teachers := store.teachers + [TeacherRow(newUserId, data.kafedraId.value, data.tabNumber.value)];
    return Ok(u);
  }
}
