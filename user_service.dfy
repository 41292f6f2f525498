/*
 * Users and the dean's-office records behind them (students, teachers,
 * staff), verification that binds a messenger id to an existing user, and
 * the profile page assembled from those records.
 */
module UserService {
  import opened Common

  datatype Role = StudentRole | StaffRole | AdminRole

  /** The stored value of a role. */
  function RoleValue(r: Role): (s: string)
    ensures s in {"student", "staff", "admin"}
  {
    match r
    case StudentRole => "student"
    case StaffRole => "staff"
    case AdminRole => "admin"
  }

  lemma RoleValueInjective(a: Role, b: Role)
    ensures RoleValue(a) == RoleValue(b) <==> a == b
  {
  }

  /** A row of the users table; `maxId` is the messenger id bound to it. */
  datatype Account = Account(id: UserId, maxId: Option<int>, role: Role, fullName: string, city: string, universityId: Option<int>)

  datatype StudentRow = StudentRow(userId: UserId, facultyId: int, groupId: int, studentCard: string)
  datatype TeacherRow = TeacherRow(userId: UserId, kafedraId: int, tabNumber: string)
  datatype StaffRow = StaffRow(userId: UserId, universityId: int, tabNumber: string)
  datatype University = University(id: int, name: string, city: string)
  datatype FacultyRow = FacultyRow(id: int, universityId: int, title: string)
  datatype GroupRow = GroupRow(id: int, facultyId: int, name: string)
  datatype KafedraRow = KafedraRow(id: int, facultyId: int, title: Option<string>)

  /** The tables behind accounts, each in row order. */
  datatype Accounts = Accounts(
    users: seq<Account>,
    students: seq<StudentRow>,
    teachers: seq<TeacherRow>,
    staff: seq<StaffRow>,
    universities: seq<University>,
    faculties: seq<FacultyRow>,
    groups: seq<GroupRow>,
    kafedras: seq<KafedraRow>)

  /** A verification request; identifiers are absent when not sent. */
  datatype VerificationRequest = VerificationRequest(
    maxId: Option<int>,
    role: Role,
    fullName: string,
    studentCard: Option<string>,
    tabNumber: Option<string>,
    city: string)

  datatype Verification = Verification(success: bool, message: string, userId: Option<UserId>, maxId: Option<int>)

  const MsgCardRequired := "Для студента необходимо указать номер студенческого билета"
  const MsgTabRequired := "Для сотрудника необходимо указать табельный номер"
  const MsgNotFound := "Данные не найдены. Обратитесь в администрацию вашего вуза"
  const MsgBound := "Успешная верификация. Привязываем max_id к уже созданному (деканатом) пользователю"
  const ErrUserNotFound := "Пользователь не найден"
  const Unknown := "Неизвестно"
  const NoCourse := "Не указан"

  function MsgRoleUnsupported(r: Role): string {
    "Верификация для роли " + RoleValue(r) + " пока не поддерживается"
  }

  function Failure(message: string): Verification {
    Verification(false, message, None, None)
  }

  // ---------------------------------------------------------------- lookups

  function FindUser(users: seq<Account>, id: UserId): (r: Option<nat>)
    ensures r.Some? ==> r.value < |users| && users[r.value].id == id
    ensures r.Some? ==> forall i :: 0 <= i < r.value ==> users[i].id != id
    ensures r.None? <==> forall i :: 0 <= i < |users| ==> users[i].id != id
  {
    FindIndex(users, (a: Account) => a.id == id)
  }

  function StudentByCard(db: Accounts, card: string): Option<StudentRow> {
    FirstWhere(db.students, (s: StudentRow) => s.studentCard == card)
  }

  function StaffByTab(db: Accounts, tab: string): Option<StaffRow> {
    FirstWhere(db.staff, (s: StaffRow) => s.tabNumber == tab)
  }

  function TeacherByTab(db: Accounts, tab: string): Option<TeacherRow> {
    FirstWhere(db.teachers, (t: TeacherRow) => t.tabNumber == tab)
  }

  function StudentOf(db: Accounts, u: UserId): Option<StudentRow> {
    FirstWhere(db.students, (s: StudentRow) => s.userId == u)
  }

  function TeacherOf(db: Accounts, u: UserId): Option<TeacherRow> {
    FirstWhere(db.teachers, (t: TeacherRow) => t.userId == u)
  }

  function StaffOf(db: Accounts, u: UserId): Option<StaffRow> {
    FirstWhere(db.staff, (s: StaffRow) => s.userId == u)
  }

  function UniversityById(db: Accounts, id: int): Option<University> {
    FirstWhere(db.universities, (x: University) => x.id == id)
  }

  function FacultyById(db: Accounts, id: int): Option<FacultyRow> {
    FirstWhere(db.faculties, (x: FacultyRow) => x.id == id)
  }

  function GroupById(db: Accounts, id: int): Option<GroupRow> {
    FirstWhere(db.groups, (x: GroupRow) => x.id == id)
  }

  function KafedraById(db: Accounts, id: int): Option<KafedraRow> {
    FirstWhere(db.kafedras, (x: KafedraRow) => x.id == id)
  }

  /** The foreign keys of the person tables: every student, teacher and staff row has its user. */
  predicate Linked(db: Accounts) {
    && (forall i :: 0 <= i < |db.students| ==> FindUser(db.users, db.students[i].userId).Some?)
    && (forall i :: 0 <= i < |db.teachers| ==> FindUser(db.users, db.teachers[i].userId).Some?)
    && (forall i :: 0 <= i < |db.staff| ==> FindUser(db.users, db.staff[i].userId).Some?)
  }

  lemma StudentLinked(db: Accounts, card: string)
    requires Linked(db) && StudentByCard(db, card).Some?
    ensures FindUser(db.users, StudentByCard(db, card).value.userId).Some?
  {
  }

  lemma StaffLinked(db: Accounts, tab: string)
    requires Linked(db) && StaffByTab(db, tab).Some?
    ensures FindUser(db.users, StaffByTab(db, tab).value.userId).Some?
  {
  }

  lemma TeacherLinked(db: Accounts, tab: string)
    requires Linked(db) && TeacherByTab(db, tab).Some?
    ensures FindUser(db.users, TeacherByTab(db, tab).value.userId).Some?
  {
  }

  /** Binding a messenger id to user i, when one is given. */
  function Bind(db: Accounts, i: nat, maxId: Option<int>): Accounts
    requires i < |db.users|
  {
    if maxId.Some? then db.(users := db.users[i := db.users[i].(maxId := maxId)]) else db
  }

  /** Binding changes the messenger id of user i, when one is given, and nothing else. */
  lemma BindShape(db: Accounts, i: nat, maxId: Option<int>)
    requires i < |db.users|
    ensures var db' := Bind(db, i, maxId);
            && |db'.users| == |db.users|
            && db'.users[i] == db.users[i].(maxId := if maxId.Some? then maxId else db.users[i].maxId)
            && (forall k :: 0 <= k < |db.users| && k != i ==> db'.users[k] == db.users[k])
            && db' == db.(users := db'.users)
  {
  }

  lemma BindKeepsLinks(db: Accounts, i: nat, maxId: Option<int>)
    requires Linked(db) && i < |db.users|
    ensures Linked(Bind(db, i, maxId))
  {
    var db' := Bind(db, i, maxId);
    assert forall k :: 0 <= k < |db.users| ==> db'.users[k].id == db.users[k].id;
  }

  // ----------------------------------------------------------- verify_user

  /** Bind the messenger id to the user behind a found person and report success. */
  function Verified(db: Accounts, userId: UserId, maxId: Option<int>): (Accounts, Verification)
    requires FindUser(db.users, userId).Some?
  {
    var i := FindUser(db.users, userId).value;
    var db' := Bind(db, i, maxId);
    (db', Verification(true, MsgBound, Some(userId), db'.users[i].maxId))
  }

  function VerifyStudent(db: Accounts, req: VerificationRequest): (Accounts, Verification)
    requires Linked(db)
  {
    if !Truthy(req.studentCard) then (db, Failure(MsgCardRequired))
    else if StudentByCard(db, req.studentCard.value).None? then (db, Failure(MsgNotFound))
    else
      StudentLinked(db, req.studentCard.value);
      Verified(db, StudentByCard(db, req.studentCard.value).value.userId, req.maxId)
  }

  function VerifyStaff(db: Accounts, req: VerificationRequest): (Accounts, Verification)
    requires Linked(db)
  {
    if !Truthy(req.tabNumber) then (db, Failure(MsgTabRequired))
    else if StaffByTab(db, req.tabNumber.value).None? then (db, Failure(MsgNotFound))
    else
      StaffLinked(db, req.tabNumber.value);
      Verified(db, StaffByTab(db, req.tabNumber.value).value.userId, req.maxId)
  }

  /** verify_user: find the person by card or tab number and bind the messenger id, without comparing names. */
  function VerifySpec(db: Accounts, req: VerificationRequest): (Accounts, Verification)
    requires Linked(db)
  {
    match req.role
    case StudentRole => VerifyStudent(db, req)
    case StaffRole => VerifyStaff(db, req)
    case AdminRole => (db, Failure(MsgRoleUnsupported(req.role)))
  }

  /** What binding does: user i alone gets the messenger id, when one is given, and the links survive. */
  lemma VerifiedOutcome(db: Accounts, userId: UserId, maxId: Option<int>)
    requires Linked(db) && FindUser(db.users, userId).Some?
    ensures var (db', v) := Verified(db, userId, maxId);
            var i := FindUser(db.users, userId).value;
            && v.success && v.userId == Some(userId)
            && |db'.users| == |db.users|
            && db'.users[i].maxId == (if maxId.Some? then maxId else db.users[i].maxId)
            && v.maxId == db'.users[i].maxId
            && (forall k :: 0 <= k < |db.users| && k != i ==> db'.users[k] == db.users[k])
            && db'.students == db.students && db'.teachers == db.teachers && db'.staff == db.staff
            && Linked(db')
  {
    BindKeepsLinks(db, FindUser(db.users, userId).value, maxId);
  }

  /** Who verification finds: the first student with the card, or the first staff member with the tab number. */
  function VerifiedPerson(db: Accounts, req: VerificationRequest): Option<UserId> {
    if req.role == StudentRole && Truthy(req.studentCard) && StudentByCard(db, req.studentCard.value).Some? then
      Some(StudentByCard(db, req.studentCard.value).value.userId)
    else if req.role == StaffRole && Truthy(req.tabNumber) && StaffByTab(db, req.tabNumber.value).Some? then
      Some(StaffByTab(db, req.tabNumber.value).value.userId)
    else None
  }

  /**
   * Verification succeeds exactly when it finds a person; it then binds the
   * given messenger id to that user alone and reports the bound id.  A
   * failure changes nothing and names no user.
   */
  lemma VerifyOutcome(db: Accounts, req: VerificationRequest)
    requires Linked(db)
    ensures var (db', v) := VerifySpec(db, req);
            && (v.success <==> VerifiedPerson(db, req).Some?)
            && (!v.success ==> db' == db && v.userId.None? && v.maxId.None?)
            && (v.success ==>
                  && VerifiedPerson(db, req).Some? && FindUser(db.users, VerifiedPerson(db, req).value).Some?
                  && var i := FindUser(db.users, VerifiedPerson(db, req).value).value;
                  && v.userId == VerifiedPerson(db, req)
                  && |db'.users| == |db.users|
                  && db'.users[i].maxId == (if req.maxId.Some? then req.maxId else db.users[i].maxId)
                  && v.maxId == db'.users[i].maxId
                  && (forall k :: 0 <= k < |db.users| && k != i ==> db'.users[k] == db.users[k])
                  && db'.students == db.students && db'.teachers == db.teachers && db'.staff == db.staff)
            && Linked(db')
  {
    match VerifiedPerson(db, req)
    case None =>
    case Some(u) =>
      if req.role == StudentRole {
        StudentLinked(db, req.studentCard.value);
        assert VerifySpec(db, req) == Verified(db, u, req.maxId);
      } else {
        StaffLinked(db, req.tabNumber.value);
        assert VerifySpec(db, req) == Verified(db, u, req.maxId);
      }
      VerifiedOutcome(db, u, req.maxId);
  }

  /**
   * The message of each outcome: a missing identifier for the role, no
   * matching record, an unsupported role, or the binding.
   */
  lemma VerifyMessages(db: Accounts, req: VerificationRequest)
    requires Linked(db)
    ensures var v := VerifySpec(db, req).1;
            && (req.role == StudentRole && !Truthy(req.studentCard) ==> v.message == MsgCardRequired)
            && (req.role == StaffRole && !Truthy(req.tabNumber) ==> v.message == MsgTabRequired)
            && (req.role == StudentRole && Truthy(req.studentCard) && StudentByCard(db, req.studentCard.value).None?
                ==> v.message == MsgNotFound)
            && (req.role == StaffRole && Truthy(req.tabNumber) && StaffByTab(db, req.tabNumber.value).None?
                ==> v.message == MsgNotFound)
            && (req.role == AdminRole ==> v.message == MsgRoleUnsupported(AdminRole))
            && (v.success ==> v.message == MsgBound)
  {
  }

  /** The name and city of the request play no part in verify_user. */
  lemma VerifyIgnoresNameAndCity(db: Accounts, req: VerificationRequest, name: string, city: string)
    requires Linked(db)
    ensures VerifySpec(db, req.(fullName := name, city := city)) == VerifySpec(db, req)
  {
  }

  /** Staff verification reads only the staff table: teachers are never found by it. */
  lemma StaffVerifyIgnoresTeachers(db: Accounts, req: VerificationRequest, teachers: seq<TeacherRow>)
    requires Linked(db) && Linked(db.(teachers := teachers)) && req.role == StaffRole
    ensures VerifySpec(db.(teachers := teachers), req).1 == VerifySpec(db, req).1
  {
  }

  // ---------------------------------------------------------------- profile

  /** The leading ASCII digits of a text: what the pattern (\d+) matches at the start. */
  function LeadingDigits(s: string): (r: string)
    ensures AllDigits(r) && |r| <= |s| && r == s[..|r|]
    ensures |r| < |s| ==> !IsDigit(s[|r|])
  {
    if s == [] || !IsDigit(s[0]) then [] else [s[0]] + LeadingDigits(s[1..])
  }

  lemma {:induction false} LeadingDigitsOf(a: string, rest: string)
    requires AllDigits(a) && (rest == [] || !IsDigit(rest[0]))
    ensures LeadingDigits(a + rest) == a
  {
    if a != [] {
      assert (a + rest)[1..] == a[1..] + rest;
      LeadingDigitsOf(a[1..], rest);
    } else {
      assert a + rest == rest;
    }
  }

  /** The course a group number stands for: the hundreds for three digits and more, else the number itself. */
  function CourseOf(n: nat): nat {
    if n >= 100 then n / 100 else n
  }

  /** The course text of a group name. */
  function CourseText(groupName: Option<string>): string {
    if groupName.None? || groupName.value == "" then NoCourse
    else
      var digits := LeadingDigits(groupName.value);
      if digits == [] then NoCourse else NatToString(CourseOf(DigitsValue(digits))) + " курса"
  }

  /** A group name that starts with a number n, followed by anything but a digit, reads as course CourseOf(n). */
  lemma CourseOfGroupName(n: nat, rest: string)
    requires rest == [] || !IsDigit(rest[0])
    ensures CourseText(Some(NatToString(n) + rest)) == NatToString(CourseOf(n)) + " курса"
  {
    LeadingDigitsOf(NatToString(n), rest);
    DigitsValueOfNatToString(n);
  }

  /** A group name that does not start with a digit has no course. */
  lemma NoDigitsNoCourse(name: string)
    requires name == [] || !IsDigit(name[0])
    ensures CourseText(Some(name)) == NoCourse
  {
  }

  /** The profile dictionary; an absent field is a key the dictionary does not have. */
  datatype Profile = Profile(
    fullName: string,
    role: string,
    courseFacultyGroup: Option<string>,
    placeOfStudy: Option<string>,
    studentCard: Option<string>,
    placeOfWork: Option<string>,
    kafedra: Option<Option<string>>,
    tabNumber: Option<string>)

  /** Where the user studies or works: the linked university with its city, else the user's own city. */
  function Place(db: Accounts, user: Account): string {
    if user.universityId.Some? && UniversityById(db, user.universityId.value).Some? then
      var u := UniversityById(db, user.universityId.value).value;
      u.name + ", " + u.city
    else user.city
  }

  function StudentProfile(db: Accounts, p: Profile, s: StudentRow, place: string): Profile {
    var faculty := if FacultyById(db, s.facultyId).Some? then FacultyById(db, s.facultyId).value.title else Unknown;
    var group := GroupById(db, s.groupId);
    var groupName := if group.Some? then group.value.name else Unknown;
    var course := CourseText(if group.Some? then Some(group.value.name) else None);
    p.(courseFacultyGroup := Some(course + ", " + faculty + ", " + groupName + " группа"),
       placeOfStudy := Some(place), studentCard := Some(s.studentCard))
  }

  function StaffProfile(db: Accounts, p: Profile, user: Account, place: string): Profile {
    var p1 := p.(placeOfWork := Some(place));
    match TeacherOf(db, user.id)
    case Some(t) =>
      p1.(kafedra := Some(if KafedraById(db, t.kafedraId).Some? then KafedraById(db, t.kafedraId).value.title else None),
          tabNumber := Some(t.tabNumber))
    case None =>
      match StaffOf(db, user.id)
      case Some(s) => p1.(tabNumber := Some(s.tabNumber))
      case None => p1
  }

  /** get_user_profile. */
  function ProfileSpec(db: Accounts, u: UserId): (r: Result<Profile>)
    ensures r.Err? <==> FindUser(db.users, u).None?
    ensures r.Err? ==> r.error == ErrUserNotFound
  {
    match FindUser(db.users, u)
    case None => Err(ErrUserNotFound)
    case Some(i) =>
      var user := db.users[i];
      var p := Profile(user.fullName, RoleValue(user.role), None, None, None, None, None, None);
      var place := Place(db, user);
      if user.role == StudentRole then
        match StudentOf(db, u)
        case Some(s) => Ok(StudentProfile(db, p, s, place))
        case None => Ok(p)
      else if user.role == StaffRole then Ok(StaffProfile(db, p, user, place))
      else Ok(p)
  }

  /**
   * Which fields a profile has: study fields exactly for a student with a
   * student record, a place of work exactly for staff, a tab number only for
   * staff with a teacher or staff record, the teacher's first; nothing else
   * for an admin.
   */
  lemma ProfileFields(db: Accounts, u: UserId)
    requires FindUser(db.users, u).Some?
    ensures var user := db.users[FindUser(db.users, u).value];
            var p := ProfileSpec(db, u).value;
            && p.fullName == user.fullName && p.role == RoleValue(user.role)
            && (p.placeOfStudy.Some? <==> user.role == StudentRole && StudentOf(db, u).Some?)
            && (p.placeOfStudy.Some? ==> p.placeOfStudy.value == Place(db, user)
                                          && p.studentCard == Some(StudentOf(db, u).value.studentCard))
            && (p.placeOfWork.Some? <==> user.role == StaffRole)
            && (p.placeOfWork.Some? ==> p.placeOfWork.value == Place(db, user))
            && (p.tabNumber.Some? <==> user.role == StaffRole && (TeacherOf(db, u).Some? || StaffOf(db, u).Some?))
            && (p.tabNumber.Some? ==> p.tabNumber.value == (if TeacherOf(db, u).Some? then TeacherOf(db, u).value.tabNumber else StaffOf(db, u).value.tabNumber))
            && (p.kafedra.Some? <==> user.role == StaffRole && TeacherOf(db, u).Some?)
            && (user.role == AdminRole ==> p == Profile(user.fullName, "admin", None, None, None, None, None, None))
  {
  }

  /** The place reads "name, city" of the linked university, else the user's city. */
  lemma PlaceShape(db: Accounts, user: Account)
    ensures user.universityId.Some? && UniversityById(db, user.universityId.value).Some? ==>
              Place(db, user) == UniversityById(db, user.universityId.value).value.name + ", " + UniversityById(db, user.universityId.value).value.city
    ensures user.universityId.None? ==> Place(db, user) == user.city
  {
  }

  // ------------------------------------------------------------ the service

  /** The account tables, with users, students, teachers and staff updated in place. */
  class AccountStore {
    var users: seq<Account>
    var students: seq<StudentRow>
    var teachers: seq<TeacherRow>
    var staff: seq<StaffRow>
    const universities: seq<University>
    const faculties: seq<FacultyRow>
    const groups: seq<GroupRow>
    const kafedras: seq<KafedraRow>

    function State(): Accounts
      reads this
    {
      Accounts(users, students, teachers, staff, universities, faculties, groups, kafedras)
    }

    constructor(db: Accounts)
      ensures State() == db
    {
      users := db.users;
      students := db.students;
      teachers := db.teachers;
      staff := db.staff;
      universities := db.universities;
      faculties := db.faculties;
      groups := db.groups;
      kafedras := db.kafedras;
    }

    /** Set user i's messenger id when one is given. */
    method BindMaxId(i: nat, maxId: Option<int>)
      requires i < |users|
      modifies this
      ensures State() == Bind(old(State()), i, maxId)
    {
      if maxId.Some? {
        users := users[i := users[i].(maxId := maxId)];
      }
    }

    /** verify_user. */
    method VerifyUser(req: VerificationRequest) returns (v: Verification)
      requires Linked(State())
      modifies this
      ensures (State(), v) == VerifySpec(old(State()), req)
    {
      if req.role == StudentRole {
        if !Truthy(req.studentCard) {
          return Failure(MsgCardRequired);
        }
        var s := StudentByCard(State(), req.studentCard.value);
        if s.None? {
          return Failure(MsgNotFound);
        }
        StudentLinked(State(), req.studentCard.value);
        var i := FindUser(users, s.value.userId).value;
        BindMaxId(i, req.maxId);
        return Verification(true, MsgBound, Some(s.value.userId), users[i].maxId);
      } else if req.role == StaffRole {
        if !Truthy(req.tabNumber) {
          return Failure(MsgTabRequired);
        }
        var s := StaffByTab(State(), req.tabNumber.value);
        if s.None? {
          return Failure(MsgNotFound);
        }
        StaffLinked(State(), req.tabNumber.value);
        var i := FindUser(users, s.value.userId).value;
        BindMaxId(i, req.maxId);
        return Verification(true, MsgBound, Some(s.value.userId), users[i].maxId);
      }
      return Failure(MsgRoleUnsupported(req.role));
    }
  }
}
