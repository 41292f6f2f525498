/*
 * The bot's registration coordinator: the step-by-step registration
 * session (role, step, the chosen university, faculty, group or kafedra,
 * and the options offered at the current step), choosing an option from the
 * user's answer, the numbered option list, loading the options of a step
 * from the identity backend, and validating a finished session before it is
 * sent to the backend.
 *
 * The identity backend is a value of catalogue answers; what it does with a
 * registration request is not part of this model.
 */
module AppRegistration {
  import opened Common
  import AppBot

  // ---------------------------------------------------------------- steps

  const StepFullName := "full_name"
  const StepUniversity := "university"
  const StepFaculty := "faculty"
  const StepGroup := "group"
  const StepStudentCard := "student_card"
  const StepKafedra := "kafedra"
  const StepTabNumber := "tab_number"

  /** The backend's user roles. */
  const RoleStudent := "student"
  const RoleStaff := "staff"

  // ----------------------------------------------------------------- data

  /** registrationOption: one entry of the list the user chooses from. */
  datatype Choice = Choice(id: string, title: string, subtitle: string)

  /** A university as the catalogue lists it and as the session keeps it. */
  datatype University = University(id: string, name: string, city: string)

  /** A faculty or a kafedra. */
  datatype Entity = Entity(id: string, title: string)

  datatype Group = Group(id: string, name: string, code: string)

  const NoUniversity := University("", "", "")
  const NoEntity := Entity("", "")
  const NoGroup := Group("", "", "")

  /** registrationSessionData as a value: what the session payload holds between two messages. */
  datatype SessionData = SessionData(
    role: string, step: string, fullName: string,
    university: University, faculty: Entity, group: Group, kafedra: Entity,
    studentCard: string, tabNumber: string, options: seq<Choice>)

  /** newRegistrationSession: the full-name step of a new session for the role, nothing chosen yet. */
  function NewSession(role: string): (r: SessionData)
    ensures r.role == role && r.step == StepFullName
    ensures r.fullName == "" && r.studentCard == "" && r.tabNumber == "" && r.options == []
    ensures r.university == NoUniversity && r.faculty == NoEntity && r.group == NoGroup && r.kafedra == NoEntity
  {
    SessionData(role, StepFullName, "", NoUniversity, NoEntity, NoGroup, NoEntity, "", "", [])
  }

  // ------------------------------------------------------------ selection

  const NoOptions := "нет доступных вариантов"
  const NoAnswer := "укажите номер варианта"
  const NotFound := "вариант не найден"

  /** An option named by the answer, case-insensitively, by its id or its title. */
  function Names(value: string): Choice -> bool {
    (o: Choice) => EqualFold(o.id, value) || EqualFold(o.title, value)
  }

  /**
   * selectOption: the option whose 1-based number the trimmed answer is,
   * else the first option that it names, else an error.
   */
  function SelectSpec(options: seq<Choice>, input: string): Result<Choice> {
    if options == [] then Err(NoOptions)
    else if TrimGo(input) == "" then Err(NoAnswer)
    else
      var n := ParseDecimal(TrimGo(input));
      if n.Some? && 1 <= n.value <= |options| then Ok(options[n.value - 1])
      else match FirstWhere(options, Names(TrimGo(input)))
           case Some(o) => Ok(o)
           case None => Err(NotFound)
  }

  /** Whether the trimmed answer is the number of an option. */
  predicate IsOptionNumber(options: seq<Choice>, value: string) {
    ParseDecimal(value).Some? && 1 <= ParseDecimal(value).value <= |options|
  }

  /** The choice is always one of the options, and errors come exactly from no options, a blank answer, or nothing matching. */
  lemma SelectOutcome(options: seq<Choice>, input: string)
    ensures SelectSpec(options, input).Ok? ==> SelectSpec(options, input).value in options
    ensures SelectSpec(options, input) == Err(NoOptions) <==> options == []
    ensures SelectSpec(options, input) == Err(NoAnswer) <==> options != [] && Blank(input, GoWs)
    ensures SelectSpec(options, input) == Err(NotFound) <==>
              options != [] && !Blank(input, GoWs) && !IsOptionNumber(options, TrimGo(input))
              && forall k :: 0 <= k < |options| ==> !Names(TrimGo(input))(options[k])
  {
    TrimEmptyIffBlank(input, GoWs);
  }

  /** The number k+1 picks the k-th option, whatever the names of the options. */
  lemma SelectByNumber(options: seq<Choice>, k: nat)
    requires k < |options|
    ensures SelectSpec(options, IntToString(k + 1)) == Ok(options[k])
  {
    var s := IntToString(k + 1);
    TrimUnchanged(s, GoWs);
    ParseIntToString(k + 1);
  }

  /** An answer that is not an option's number picks the first option it names. */
  lemma SelectByName(options: seq<Choice>, input: string, k: nat)
    requires k < |options| && !Blank(input, GoWs) && !IsOptionNumber(options, TrimGo(input))
    requires Names(TrimGo(input))(options[k]) && forall j :: 0 <= j < k ==> !Names(TrimGo(input))(options[j])
    ensures SelectSpec(options, input) == Ok(options[k])
  {
    TrimEmptyIffBlank(input, GoWs);
    FirstWhereAt(options, Names(TrimGo(input)), k);
  }

  /** Surrounding white space in the answer makes no difference. */
  lemma SelectTrimmed(options: seq<Choice>, input: string)
    ensures SelectSpec(options, TrimGo(input)) == SelectSpec(options, input)
  {
    TrimIdempotent(input, GoWs);
  }

  // --------------------------------------------------------- option list

  /** One line of the option list: "n. Title", with " (Subtitle)" when there is one. */
  function OptionLine(n: nat, o: Choice): string {
    IntToString(n) + ". " + o.title + (if o.subtitle != "" then " (" + o.subtitle + ")" else "")
  }

  /** The lines of the option list, numbered from 1. */
  function OptionLines(options: seq<Choice>): seq<string> {
    NumberedLines(options, OptionLine)
  }

  /** formatRegistrationOptions: the lines joined by newlines, no newline after the last. */
  function OptionsText(options: seq<Choice>): string {
    Join(OptionLines(options), "\n")
  }

  /** The builder loop of formatRegistrationOptions. */
  method FormatOptions(options: seq<Choice>) returns (b: string)
    ensures b == OptionsText(options)
  {
    if |options| == 0 {
      return "";
    }
    b := JoinNumbered(options, OptionLine, "\n");
  }

  /** The list is empty exactly when there are no options. */
  lemma OptionsTextEmpty(options: seq<Choice>)
    ensures OptionsText(options) == "" <==> options == []
  {
    if options != [] {
      var lines := OptionLines(options);
      JoinStartsWithFirst(lines, "\n");
      assert lines[0] == OptionLine(1, options[0]);
      assert |IntToString(1)| >= 1;
    }
  }

  /** No option line holds a newline when no title or subtitle does. */
  lemma OptionLineFlat(n: nat, o: Choice)
    requires '\n' !in o.title && '\n' !in o.subtitle
    ensures '\n' !in OptionLine(n, o)
  {
    var num := IntToString(n);
    assert forall k :: 0 <= k < |num| ==> IsDigit(num[k]);
    assert '\n' !in num;
  }

  /** Splitting the list on newlines gives back one line per option, in order. */
  lemma OptionsTextLines(options: seq<Choice>)
    requires options != []
    requires forall k :: 0 <= k < |options| ==> '\n' !in options[k].title && '\n' !in options[k].subtitle
    ensures Split(OptionsText(options), '\n') == OptionLines(options)
  {
    var lines := OptionLines(options);
    forall k | 0 <= k < |lines| ensures '\n' !in lines[k] {
      OptionLineFlat(k + 1, options[k]);
    }
    JoinSplit(lines, '\n');
  }

  // ------------------------------------------------------------- catalogue

  /** The identity backend's catalogue answers: each list or the error of fetching it. */
  datatype Identity = Identity(
    universities: Result<seq<University>>,
    faculties: string -> Result<seq<Entity>>,
    groups: (string, string) -> Result<seq<Group>>,
    kafedras: (string, string) -> Result<seq<Entity>>)

  function UniversityChoice(u: University): Choice { Choice(u.id, u.name, u.city) }
  function EntityChoice(e: Entity): Choice { Choice(e.id, e.title, "") }
  function GroupChoice(g: Group): Choice { Choice(g.id, g.name, g.code) }

  const NoIdentity := "registration coordinator: identity backend is not configured"

  /** What LoadOptions does with the session's options. */
  datatype Load = LoadFailed(error: string) | Offer(options: seq<Choice>) | NoOffer

  /** A fetched catalogue list: its error after the step's prefix, the step's error when it is empty, else its options. */
  function Fetched<T>(r: Result<seq<T>>, failure: string, empty: string, f: T -> Choice): (l: Load)
    ensures !l.NoOffer?
    ensures l.Offer? <==> r.Ok? && r.value != []
    ensures l.Offer? ==> l.options == MapSeq(r.value, f) && l.options != []
  {
    match r
    case Err(e) => LoadFailed(failure + e)
    case Ok(xs) => if xs == [] then LoadFailed(empty) else Offer(MapSeq(xs, f))
  }

  /**
   * LoadOptions: the step's catalogue list as options; an error for a
   * missing backend, a failed or empty list, or a missing earlier choice;
   * no options at any other step.
   */
  function LoadSpec(d: SessionData, identity: Option<Identity>): Load {
    if identity.None? then LoadFailed(NoIdentity)
    else
      var id := identity.value;
      if d.step == StepUniversity then
        Fetched(id.universities, "не удалось загрузить список университетов: ", "в каталоге пока нет университетов", UniversityChoice)
      else if d.step == StepFaculty then
        if d.university.id == "" then LoadFailed("сначала выберите университет")
        else Fetched(id.faculties(d.university.id), "не удалось получить список факультетов: ",
                     "в университете пока нет факультетов", EntityChoice)
      else if d.step == StepGroup then
        if d.university.id == "" || d.faculty.id == "" then LoadFailed("сначала выберите факультет")
        else Fetched(id.groups(d.university.id, d.faculty.id), "не удалось получить список групп: ",
                     "для выбранного факультета нет учебных групп", GroupChoice)
      else if d.step == StepKafedra then
        if d.university.id == "" || d.faculty.id == "" then LoadFailed("сначала выберите факультет")
        else Fetched(id.kafedras(d.university.id, d.faculty.id), "не удалось получить список кафедр: ",
                     "для выбранного факультета пока нет кафедр", EntityChoice)
      else NoOffer
  }

  /** The catalogue list of the step, when the step has one and its earlier choices are made. */
  predicate CatalogueStep(step: string) {
    step == StepUniversity || step == StepFaculty || step == StepGroup || step == StepKafedra
  }

  /**
   * Options are offered only at the four catalogue steps, never empty, one
   * per catalogue entry; an earlier choice left out is an error; any other
   * step clears the options.
   */
  lemma LoadOutcome(d: SessionData, identity: Option<Identity>)
    ensures LoadSpec(d, identity).Offer? ==> CatalogueStep(d.step) && LoadSpec(d, identity).options != []
    ensures identity.Some? && !CatalogueStep(d.step) ==> LoadSpec(d, identity) == NoOffer
    ensures identity.Some? && d.step == StepFaculty && d.university.id == "" ==> LoadSpec(d, identity).LoadFailed?
    ensures identity.Some? && (d.step == StepGroup || d.step == StepKafedra) && (d.university.id == "" || d.faculty.id == "")
            ==> LoadSpec(d, identity).LoadFailed?
    ensures identity.Some? && d.step == StepUniversity && identity.value.universities.Ok? ==>
              (LoadSpec(d, identity).Offer? <==> identity.value.universities.value != [])
  {
  }

  /** The university options carry each university's id, name and city, in catalogue order. */
  lemma UniversityOptions(d: SessionData, id: Identity)
    requires d.step == StepUniversity && id.universities.Ok? && id.universities.value != []
    ensures LoadSpec(d, Some(id)) == Offer(MapSeq(id.universities.value, UniversityChoice))
    ensures forall k :: 0 <= k < |id.universities.value| ==>
              LoadSpec(d, Some(id)).options[k] == Choice(id.universities.value[k].id, id.universities.value[k].name, id.universities.value[k].city)
  {
  }

  // -------------------------------------------------------------- register

  /** backend.RegistrationRequest. */
  datatype Request = Request(
    maxID: int, role: string, fullName: string, city: string, universityID: string,
    facultyID: string, groupID: string, studentCard: string, kafedraID: string, tabNumber: string)

  const UnknownUser := "registration невозможна: неизвестен user id"
  const NoFullName := "укажите ФИО"
  const NoUniversityChosen := "выберите университет"
  const NoFaculty := "выберите факультет"
  const NoGroupChosen := "выберите учебную группу"
  const NoStudentCard := "укажите номер студенческого"
  const NoKafedra := "выберите кафедру"
  const NoTabNumber := "укажите табельный номер"

  function UnsupportedRole(): string {
    "поддерживаются только роли " + AppBot.Quote(RoleStudent) + " и " + AppBot.Quote(RoleStaff)
  }

  /**
   * Register's guards, in order, and the request it sends to the backend:
   * the trimmed student card or tab number, and only the ids of the role.
   */
  function RegisterSpec(hasIdentity: bool, userID: int, d: SessionData): Result<Request> {
    if !hasIdentity then Err(NoIdentity)
    else if userID <= 0 then Err(UnknownUser)
    else if d.fullName == "" then Err(NoFullName)
    else if d.university.id == "" || d.university.name == "" then Err(NoUniversityChosen)
    else
      var base := Request(userID, d.role, d.fullName, d.university.city, d.university.id, "", "", "", "", "");
      if d.role == RoleStudent then
        if d.faculty.id == "" then Err(NoFaculty)
        else if d.group.id == "" then Err(NoGroupChosen)
        else if TrimGo(d.studentCard) == "" then Err(NoStudentCard)
        else Ok(base.(facultyID := d.faculty.id, groupID := d.group.id, studentCard := TrimGo(d.studentCard)))
      else if d.role == RoleStaff then
        if d.faculty.id == "" then Err(NoFaculty)
        else if d.kafedra.id == "" then Err(NoKafedra)
        else if TrimGo(d.tabNumber) == "" then Err(NoTabNumber)
        else Ok(base.(facultyID := d.faculty.id, kafedraID := d.kafedra.id, tabNumber := TrimGo(d.tabNumber)))
      else Err(UnsupportedRole())
  }

  /** The session a request can be built from. */
  predicate Complete(userID: int, d: SessionData) {
    userID > 0 && d.fullName != "" && d.university.id != "" && d.university.name != "" && d.faculty.id != ""
    && ((d.role == RoleStudent && d.group.id != "" && !Blank(d.studentCard, GoWs))
        || (d.role == RoleStaff && d.kafedra.id != "" && !Blank(d.tabNumber, GoWs)))
  }

  /**
   * A request is sent exactly for a complete session, and it carries the
   * user, role, name, the university's city and id, and the ids of the role.
   */
  lemma RegisterAccepts(userID: int, d: SessionData)
    ensures RegisterSpec(true, userID, d).Ok? <==> Complete(userID, d)
    ensures RegisterSpec(true, userID, d).Ok? ==>
              var q := RegisterSpec(true, userID, d).value;
              q.maxID == userID && q.role == d.role && q.fullName == d.fullName
              && q.city == d.university.city && q.universityID == d.university.id && q.facultyID == d.faculty.id
              && (d.role == RoleStudent ==>
                    q.groupID == d.group.id && q.studentCard == TrimGo(d.studentCard) && q.kafedraID == "" && q.tabNumber == "")
              && (d.role == RoleStaff ==>
                    q.kafedraID == d.kafedra.id && q.tabNumber == TrimGo(d.tabNumber) && q.groupID == "" && q.studentCard == "")
  {
    TrimEmptyIffBlank(d.studentCard, GoWs);
    TrimEmptyIffBlank(d.tabNumber, GoWs);
  }

  /** The first failing guard decides the error: the user id first, any role other than student or staff last. */
  lemma RegisterGuardOrder(userID: int, d: SessionData)
    ensures userID <= 0 ==> RegisterSpec(true, userID, d) == Err(UnknownUser)
    ensures userID > 0 && d.fullName == "" ==> RegisterSpec(true, userID, d) == Err(NoFullName)
    ensures (userID > 0 && d.fullName != "" && d.university.id != "" && d.university.name != ""
             && d.role != RoleStudent && d.role != RoleStaff) ==> RegisterSpec(true, userID, d) == Err(UnsupportedRole())
    ensures RegisterSpec(false, userID, d) == Err(NoIdentity)
  {
  }

  // -------------------------------------------------------------- session

  /** registrationSessionData as its methods mutate it in place. */
  class RegistrationSession {
    var role: string
    var step: string
    var fullName: string
    var university: University
    var faculty: Entity
    var group: Group
    var kafedra: Entity
    var studentCard: string
    var tabNumber: string
    var options: seq<Choice>

    /** The session's fields as a value. */
    function Data(): SessionData
      reads this
    {
      SessionData(role, step, fullName, university, faculty, group, kafedra, studentCard, tabNumber, options)
    }

    /** A session restored from its payload. */
    constructor (d: SessionData)
      ensures Data() == d
    {
      role, step, fullName := d.role, d.step, d.fullName;
      university, faculty, group, kafedra := d.university, d.faculty, d.group, d.kafedra;
      studentCard, tabNumber, options := d.studentCard, d.tabNumber, d.options;
    }

    /** setOptions: a copy of the options replaces the current ones. */
    method SetOptions(opts: seq<Choice>)
      modifies this
      ensures Data() == old(Data()).(options := opts)
    {
      options := opts;
    }

    /** clearOptions. */
    method ClearOptions()
      modifies this
      ensures Data() == old(Data()).(options := [])
    {
      options := [];
    }

    /** selectOption: the number test, then the loop over the options. */
    method SelectOption(input: string) returns (r: Result<Choice>)
      ensures r == SelectSpec(options, input)
    {
      if |options| == 0 {
        return Err(NoOptions);
      }
      var value := TrimGo(input);
      if value == "" {
        return Err(NoAnswer);
      }
      var idx := ParseDecimal(value);
      if idx.Some? && 0 <= idx.value - 1 < |options| {
        return Ok(options[idx.value - 1]);
      }
      var found := FirstWhereOf(options, Names(value));
      if found.Some? {
        return Ok(found.value);
      }
      return Err(NotFound);
    }

    /** LoadOptions: the catalogue list of the current step becomes the options. */
    method LoadOptions(identity: Option<Identity>) returns (err: Option<string>)
      modifies this
      ensures match LoadSpec(old(Data()), identity)
              case LoadFailed(e) => err == Some(e) && Data() == old(Data())
              case Offer(o) => err == None && Data() == old(Data()).(options := o)
              case NoOffer => err == None && Data() == old(Data()).(options := [])
    {
      if identity.None? {
        return Some(NoIdentity);
      }
      var id := identity.value;
      var loaded: Load;
      if step == StepUniversity {
        loaded := Fetch(id.universities, "не удалось загрузить список университетов: ", "в каталоге пока нет университетов", UniversityChoice);
      } else if step == StepFaculty {
        if university.id == "" {
          return Some("сначала выберите университет");
        }
        loaded := Fetch(id.faculties(university.id), "не удалось получить список факультетов: ",
                        "в университете пока нет факультетов", EntityChoice);
      } else if step == StepGroup {
        if university.id == "" || faculty.id == "" {
          return Some("сначала выберите факультет");
        }
        loaded := Fetch(id.groups(university.id, faculty.id), "не удалось получить список групп: ",
                        "для выбранного факультета нет учебных групп", GroupChoice);
      } else if step == StepKafedra {
        if university.id == "" || faculty.id == "" {
          return Some("сначала выберите факультет");
        }
        loaded := Fetch(id.kafedras(university.id, faculty.id), "не удалось получить список кафедр: ",
                        "для выбранного факультета пока нет кафедр", EntityChoice);
      } else {
        ClearOptions();
        return None;
      }
      if loaded.LoadFailed? {
        return Some(loaded.error);
      }
      SetOptions(loaded.options);
      return None;
    }
  }

  /** One step's fetch: the catalogue answer becomes an error or a non-empty list of options. */
  method Fetch<T>(r: Result<seq<T>>, failure: string, empty: string, f: T -> Choice) returns (l: Load)
    ensures l == Fetched(r, failure, empty, f)
  {
    if r.Err? {
      return LoadFailed(failure + r.error);
    }
    if |r.value| == 0 {
      return LoadFailed(empty);
    }
    var opts := MapOf(r.value, f);
    return Offer(opts);
  }
}
