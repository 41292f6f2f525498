/*
 * The bot's handlers for callbacks and for the two form sessions: which
 * application button opens which form, the registration check in front of
 * every other callback, starting an application, answering one field of an
 * application form, and the step transitions of the registration session.
 *
 * Sending messages, keyboards and logging are I/O: a handler's reply is a
 * value naming the message it sends, and its effect on the session store is
 * a change of AppBot.Service's sessions. A session payload is the JSON
 * encoding of the session data, a parameter `encode` here.
 */
module AppHandlers {
  import opened Common
  import AppBot
  import A = AppApplications
  import R = AppRegistration
  import B = BackendApplications

  // ---------------------------------------------------- payloads and steps

  const ActionStudyCertificate := "action:application:student:study_certificate"
  const ActionAcademicLeave := "action:application:student:academic_leave"
  const ActionStudyTransfer := "action:application:student:study_transfer"
  const ActionWorkCertificate := "action:application:teacher:work_certificate"
  const ActionRegistrationOpen := "action:registration:open"
  const ActionRegistrationStudent := "action:registration:role:student"
  const ActionRegistrationStaff := "action:registration:role:staff"

  const SessionApplicationFilling := "application:filling"
  const SessionRegistration := "registration:filling"

  /** applicationActionMeta: the role and the document type an application button stands for. */
  datatype ActionMeta = ActionMeta(role: string, doc: string)

  /** applicationActionPayloads. */
  const ApplicationActions: map<string, ActionMeta> := map[
    ActionStudyCertificate := ActionMeta(B.RoleStudent, B.StudyCertificate),
    ActionAcademicLeave := ActionMeta(B.RoleStudent, B.AcademicLeave),
    ActionStudyTransfer := ActionMeta(B.RoleStudent, B.StudyTransfer),
    ActionWorkCertificate := ActionMeta(B.RoleTeacher, B.WorkCertificate)]

  /** Every application button opens a configured form; the work certificate is the teacher's, the rest the student's. */
  lemma ApplicationActionsConfigured()
    ensures ApplicationActions.Keys == {ActionStudyCertificate, ActionAcademicLeave, ActionStudyTransfer, ActionWorkCertificate}
    ensures forall p :: p in ApplicationActions ==> ApplicationActions[p].doc in A.FixedForms
    ensures forall p :: p in ApplicationActions ==>
              (ApplicationActions[p].role == B.RoleTeacher <==> ApplicationActions[p].doc == B.WorkCertificate)
              && (ApplicationActions[p].role == B.RoleStudent <==> ApplicationActions[p].doc != B.WorkCertificate)
  {
    A.FixedFormsShape();
  }

  // ------------------------------------------------- the registration check

  /** Every callback except the three registration buttons needs a registered user. */
  predicate RequiresRegistration(payload: string) {
    payload != ActionRegistrationOpen && payload != ActionRegistrationStudent && payload != ActionRegistrationStaff
  }

  /** What the applications coordinator's ResolveRole answers. */
  datatype RoleLookup = Resolved(role: string) | NotRegistered | LookupFailed(error: string)

  /**
   * ensureUserRegistered: everyone passes without an applications
   * coordinator; a user the backend does not know is sent the registration
   * intro (whose sending may fail) and stopped; any other lookup error is
   * returned.
   */
  function EnsureRegistered(hasApplications: bool, lookup: RoleLookup, introError: Option<string>): (r: (bool, Option<string>))
    ensures r.0 <==> !hasApplications || lookup.Resolved?
    ensures r.0 ==> r.1 == None
    ensures hasApplications && lookup.LookupFailed? ==> r.1 == Some(lookup.error)
    ensures hasApplications && lookup.NotRegistered? ==> r.1 == introError
  {
    if !hasApplications then (true, None)
    else match lookup
      case Resolved(_) => (true, None)
      case NotRegistered => (false, introError)
      case LookupFailed(e) => (false, Some(e))
  }

  /** How the callback handler goes on: to the payload's action, or it stops with a bare answer or a "service unavailable" notice. */
  datatype Gate = Pass | Silent | ServiceUnavailable

  /** The check at the top of the callback handler. */
  function CallbackGate(payload: string, hasApplications: bool, lookup: RoleLookup, introError: Option<string>): (g: Gate)
    ensures g.Pass? <==> !RequiresRegistration(payload) || !hasApplications || lookup.Resolved?
    ensures g == ServiceUnavailable <==>
              RequiresRegistration(payload) && hasApplications
              && ((lookup.LookupFailed? && lookup.error != "")
                  || (lookup.NotRegistered? && introError.Some? && introError.value != ""))
  {
    if !RequiresRegistration(payload) then Pass
    else
      var ensured := EnsureRegistered(hasApplications, lookup, introError);
      if ensured.1.Some? then (if ensured.1.value == "" then Silent else ServiceUnavailable)
      else if !ensured.0 then Silent
      else Pass
  }

  // ----------------------------------------------------- starting a form

  /** What the applications backend answers to a submitted form. */
  datatype Reply = Accepted | UnknownUser | Failed(error: string)

  /** The coordinator's Submit: an error without a backend, else the backend's answer to the session's role, type and answers. */
  function Submitted(hasBackend: bool, backend: A.Submission -> Reply, userID: int, d: A.SessionData): (r: Reply)
    ensures !hasBackend ==> r == Failed(A.NoBackend)
    ensures hasBackend ==> r == backend(A.Submission(userID, d.role, d.docType, d.values))
  {
    match A.SubmitSpec(hasBackend, userID, d)
    case Err(e) => Failed(e)
    case Ok(s) => backend(s)
  }

  /** What an application button leads to. */
  datatype Start =
    | FormUnavailable
    | AutoSubmitFailed
    | AutoSubmitted(title: string)
    | Filling(data: A.SessionData, params: map<string, string>, prompt: string)

  /**
   * The application-button case of the callback handler: an unknown form
   * is reported, a form without fields is submitted at once, any other
   * starts a filling session at its first field.
   */
  function StartApplication(forms: map<string, A.Form>, meta: ActionMeta, hasBackend: bool,
                            backend: A.Submission -> Reply, userID: int): Start {
    match A.PrepareSession(forms, meta.role, meta.doc)
    case Err(_) => FormUnavailable
    case Ok(d) =>
      if |d.fields| == 0 then
        if Submitted(hasBackend, backend, userID, d).Accepted? then AutoSubmitted(d.formTitle) else AutoSubmitFailed
      else Filling(d, map["form_type" := meta.doc, "role" := meta.role], A.StartPrompt(d))
  }

  /** The certificate buttons submit an empty form at once: the result is exactly the backend's answer. */
  lemma CertificatesSubmittedAtOnce(p: string, hasBackend: bool, backend: A.Submission -> Reply, userID: int)
    requires p == ActionStudyCertificate || p == ActionWorkCertificate
    ensures var meta := ApplicationActions[p];
            StartApplication(A.FixedForms, meta, hasBackend, backend, userID)
            == if hasBackend && backend(A.Submission(userID, meta.role, meta.doc, map[])) == Accepted
               then AutoSubmitted(A.FixedForms[meta.doc].title) else AutoSubmitFailed
  {
    A.FixedFormsShape();
  }

  /** The leave and transfer buttons start a session at the form's first field, a file field, with nothing answered. */
  lemma OtherFormsStartFilling(p: string, hasBackend: bool, backend: A.Submission -> Reply, userID: int)
    requires p == ActionAcademicLeave || p == ActionStudyTransfer
    ensures var meta := ApplicationActions[p];
            var s := StartApplication(A.FixedForms, meta, hasBackend, backend, userID);
            s.Filling? && s.data.role == B.RoleStudent && s.data.docType == meta.doc
            && s.data.fields == A.FixedForms[meta.doc].fields && s.data.index == 0 && s.data.values == map[]
            && s.params == map["form_type" := meta.doc, "role" := B.RoleStudent]
            && s.prompt == A.StartPrompt(s.data)
            && A.CurrentField(s.data).Some? && A.CurrentField(s.data).value.kind == A.KindFile
  {
    A.FixedFormsShape();
  }

  /** The application-button case, storing the started session. */
  method OpenApplication(svc: AppBot.Service, userID: int, forms: map<string, A.Form>, meta: ActionMeta,
                         hasBackend: bool, backend: A.Submission -> Reply, encode: A.SessionData -> seq<bv8>)
    returns (s: Start)
    requires svc.Valid()
    modifies svc
    ensures svc.Valid()
    ensures s == StartApplication(forms, meta, hasBackend, backend, userID)
    ensures s.Filling? ==> svc.sessions == AppBot.StoreSession(old(svc.sessions), userID,
                                                   AppBot.SessionState(SessionApplicationFilling, Some(s.params), Some(encode(s.data))))
    ensures !s.Filling? ==> svc.sessions == old(svc.sessions)
  {
    var prepared := A.PrepareSession(forms, meta.role, meta.doc);
    if prepared.Err? {
      return FormUnavailable;
    }
    var d := prepared.value;
    if |d.fields| == 0 {
      var reply := Submitted(hasBackend, backend, userID, d);
      if reply.Accepted? {
        return AutoSubmitted(d.formTitle);
      }
      return AutoSubmitFailed;
    }
    var params := map["form_type" := meta.doc, "role" := meta.role];
    svc.SetSessionState(userID, AppBot.SessionState(SessionApplicationFilling, Some(params), Some(encode(d))));
    return Filling(d, params, A.StartPrompt(d));
  }

  // ------------------------------------------------------- session effects

  /** What a session handler does to the user's session state. */
  datatype Effect<D> = Keep | Clear | Store(data: D)

  /** The session store after a handler's effect; a stored session is saved at the step, with the parameters and the encoded data. */
  function Applied<D>(sessions: map<int, AppBot.SessionState>, userID: int, e: Effect<D>,
                      step: string, params: AppBot.Params, encode: D -> seq<bv8>): map<int, AppBot.SessionState> {
    match e
    case Keep => sessions
    case Clear => sessions - {userID}
    case Store(d) => AppBot.StoreSession(sessions, userID, AppBot.SessionState(step, params, Some(encode(d))))
  }

  // ------------------------------------------------------ filling a form

  /** The attachments of a message answering a file field: none, their JSON encoding, or an encoding error. */
  datatype Attachments = NoAttachments | Encoded(payload: string) | EncodeFailed

  /** The message the filling session sends back. */
  datatype FillReply =
    | AlreadyFilled
    | AttachFile
    | FileUnreadable
    | Remind(text: string)
    | RegistrationRequired
    | SubmitFailed
    | Success(formTitle: string)   // A.SuccessMessage(formTitle), then the main menu
    | Prompt(text: string)

  datatype Fill = Fill(effect: Effect<A.SessionData>, reply: FillReply)

  /** After an answer is recorded: a complete form is submitted and the session ends, otherwise the next field is asked. */
  function AfterAnswer(d: A.SessionData, hasBackend: bool, backend: A.Submission -> Reply, userID: int): Fill {
    if A.IsCompleted(d) then
      match Submitted(hasBackend, backend, userID, d)
      case Accepted => Fill(Clear, Success(d.formTitle))
      case UnknownUser => Fill(Clear, RegistrationRequired)
      case Failed(_) => Fill(Clear, SubmitFailed)
    else Fill(Store(d), Prompt(A.NextPrompt(d)))
  }

  /**
   * The sessionApplicationFilling handler on a restored session and the
   * message's text: a file field needs attachments, a required text field a
   * non-blank answer; an accepted answer is recorded.
   */
  function FillSpec(d: A.SessionData, text: string, attachments: Attachments,
                    hasBackend: bool, backend: A.Submission -> Reply, userID: int): Fill {
    match A.CurrentField(d)
    case None => Fill(Clear, AlreadyFilled)
    case Some(f) =>
      if f.kind == A.KindFile then
        match attachments
        case NoAttachments => Fill(Keep, AttachFile)
        case EncodeFailed => Fill(Keep, FileUnreadable)
        case Encoded(p) => AfterAnswer(A.Recorded(d, p), hasBackend, backend, userID)
      else if f.required && TrimGo(text) == "" then Fill(Keep, Remind(A.Reminder(d)))
      else AfterAnswer(A.Recorded(d, TrimGo(text)), hasBackend, backend, userID)
  }

  /** The parameters the handler stores again: a copy of the received ones, an empty map for none. */
  function CopiedParams(params: AppBot.Params): map<string, string> {
    if params.None? then map[] else params.value
  }

  /** sessionApplicationFilling on the restored session `s`, with the received state's parameters. */
  method HandleFilling(svc: AppBot.Service, s: A.ApplicationSession, userID: int, text: string, attachments: Attachments,
                       params: AppBot.Params, hasBackend: bool, backend: A.Submission -> Reply,
                       encode: A.SessionData -> seq<bv8>)
    returns (f: Fill)
    requires svc.Valid()
    modifies svc, s
    ensures svc.Valid()
    ensures f == FillSpec(old(s.Data()), text, attachments, hasBackend, backend, userID)
    ensures svc.sessions == Applied(old(svc.sessions), userID, f.effect, SessionApplicationFilling, Some(CopiedParams(params)), encode)
    ensures f.effect.Store? ==> s.Data() == f.effect.data
  {
    var field := A.CurrentField(s.Data());
    if field.None? {
      svc.ClearSessionState(userID);
      return Fill(Clear, AlreadyFilled);
    }
    if field.value.kind == A.KindFile {
      if attachments.NoAttachments? {
        return Fill(Keep, AttachFile);
      }
      if attachments.EncodeFailed? {
        return Fill(Keep, FileUnreadable);
      }
      s.RecordAnswer(attachments.payload);
    } else {
      var answer := TrimGo(text);
      if field.value.required && answer == "" {
        return Fill(Keep, Remind(A.Reminder(s.Data())));
      }
      s.RecordAnswer(answer);
    }
    f := FinishAnswer(svc, s.Data(), userID, params, hasBackend, backend, encode);
  }

  /** The rest of the handler once an answer is recorded: submit a complete form, else save it and ask the next field. */
  method FinishAnswer(svc: AppBot.Service, d: A.SessionData, userID: int, params: AppBot.Params,
                      hasBackend: bool, backend: A.Submission -> Reply, encode: A.SessionData -> seq<bv8>)
    returns (f: Fill)
    requires svc.Valid()
    modifies svc
    ensures svc.Valid()
    ensures f == AfterAnswer(d, hasBackend, backend, userID)
    ensures svc.sessions == Applied(old(svc.sessions), userID, f.effect, SessionApplicationFilling, Some(CopiedParams(params)), encode)
  {
    if d.index >= |d.fields| {
      var reply := Submitted(hasBackend, backend, userID, d);
      svc.ClearSessionState(userID);
      match reply
      case Accepted => return Fill(Clear, Success(d.formTitle));
      case UnknownUser => return Fill(Clear, RegistrationRequired);
      case Failed(_) => return Fill(Clear, SubmitFailed);
    }
    var newParams := CopiedParams(params);
    svc.SetSessionState(userID, AppBot.SessionState(SessionApplicationFilling, Some(newParams), Some(encode(d))));
    return Fill(Store(d), Prompt(A.NextPrompt(d)));
  }

  /** No current field: the session ends, whatever the message. */
  lemma FillingWithoutField(d: A.SessionData, text: string, attachments: Attachments,
                            hasBackend: bool, backend: A.Submission -> Reply, userID: int)
    requires A.CurrentField(d).None?
    ensures FillSpec(d, text, attachments, hasBackend, backend, userID) == Fill(Clear, AlreadyFilled)
  {
  }

  /** A file field, required or not, keeps its step until a message brings attachments that encode. */
  lemma FileFieldNeedsAttachments(d: A.SessionData, text: string, attachments: Attachments,
                                  hasBackend: bool, backend: A.Submission -> Reply, userID: int)
    requires A.CurrentField(d).Some? && A.CurrentField(d).value.kind == A.KindFile
    ensures var f := FillSpec(d, text, attachments, hasBackend, backend, userID);
            f.effect.Keep? <==> !attachments.Encoded?
  {
  }

  /** A required text field answered with blanks is asked again through its reminder, and nothing is recorded. */
  lemma RequiredFieldReminds(d: A.SessionData, text: string, attachments: Attachments,
                             hasBackend: bool, backend: A.Submission -> Reply, userID: int)
    requires A.CurrentField(d).Some? && A.CurrentField(d).value.kind != A.KindFile
    ensures var f := FillSpec(d, text, attachments, hasBackend, backend, userID);
            f.effect.Keep? <==> A.CurrentField(d).value.required && Blank(text, GoWs)
    ensures A.CurrentField(d).value.required && Blank(text, GoWs) ==>
              FillSpec(d, text, attachments, hasBackend, backend, userID) == Fill(Keep, Remind(A.Reminder(d)))
  {
    TrimEmptyIffBlank(text, GoWs);
  }

  /**
   * An accepted answer is stored under the field's name and the form moves
   * on by one field; a form still incomplete is saved and asks its next
   * field, a complete one is submitted and the session ends either way.
   */
  lemma AnswerAdvances(d: A.SessionData, text: string, attachments: Attachments,
                       hasBackend: bool, backend: A.Submission -> Reply, userID: int)
    requires A.CurrentField(d).Some?
    ensures var f := FillSpec(d, text, attachments, hasBackend, backend, userID);
            f.effect.Store? ==>
              f.effect.data.index == d.index + 1 && f.effect.data.fields == d.fields
              && f.effect.data.values.Keys == d.values.Keys + {d.fields[d.index].name}
              && !A.IsCompleted(f.effect.data) && f.reply == Prompt(A.NextPrompt(f.effect.data))
    ensures var f := FillSpec(d, text, attachments, hasBackend, backend, userID);
            f.effect.Clear? <==> d.index == |d.fields| - 1 && !f.effect.Keep?
  {
  }

  /** Answering the last field submits the answers recorded so far with this one, and the reply follows the backend's answer. */
  lemma LastAnswerSubmits(d: A.SessionData, text: string, hasBackend: bool, backend: A.Submission -> Reply, userID: int)
    requires 0 < |d.fields| && d.index == |d.fields| - 1 && d.fields[d.index].kind != A.KindFile
    requires !(d.fields[d.index].required && Blank(text, GoWs))
    ensures var values := d.values[d.fields[d.index].name := TrimGo(text)];
            var reply := if hasBackend then backend(A.Submission(userID, d.role, d.docType, values)) else Failed(A.NoBackend);
            FillSpec(d, text, NoAttachments, hasBackend, backend, userID)
            == match reply
               case Accepted => Fill(Clear, Success(d.formTitle))
               case UnknownUser => Fill(Clear, RegistrationRequired)
               case Failed(_) => Fill(Clear, SubmitFailed)
  {
    TrimEmptyIffBlank(text, GoWs);
  }

  // ------------------------------------------------------- cancelling

  /**
   * The cancel word as the handler's source spells it: the UTF-8 bytes of
   * "отмена" read back as Mac Cyrillic, twelve characters among which the
   * capital U+0412.
   */
  const CancelWordAsWritten: string :=
    ['\U{2013}', '\U{040A}', '\U{2014}', '\U{0412}', '\U{2013}', '\U{0409}',
     '\U{2013}', '\U{00B5}', '\U{2013}', '\U{0459}', '\U{2013}', '\U{221E}']
  const CancelWord := "отмена"
  const CancelCommand := "/cancel"

  /** The cancel test as written: the lower-cased answer against the mis-encoded word or "/cancel". */
  predicate CancelsAsWritten(answer: string) {
    Lower(answer) == CancelWordAsWritten || Lower(answer) == CancelCommand
  }

  /** The cancel test as intended: "отмена" or "/cancel", in any case. */
  predicate Cancels(answer: string) {
    Lower(answer) == CancelWord || Lower(answer) == CancelCommand
  }

  /** No lower-cased text equals the mis-encoded word, so as written only "/cancel" cancels. */
  lemma CancelWordUnreachable(answer: string)
    ensures Lower(answer) != CancelWordAsWritten
    ensures CancelsAsWritten(answer) <==> Lower(answer) == CancelCommand
  {
    LowerAt(answer);
    assert CancelWordAsWritten[3] == '\U{0412}' && IsUpper(CancelWordAsWritten[3]);
    if |answer| > 3 {
      assert !IsUpper(Lower(answer)[3]);
    }
  }

  /** Typing "отмена" does not cancel the registration as written. */
  lemma CancelWordIgnoredAsWritten()
    ensures !CancelsAsWritten(CancelWord)
    ensures !CancelsAsWritten("Отмена")
  {
    CancelWordUnreachable(CancelWord);
    CancelWordUnreachable("Отмена");
    LowerNoUpper(CancelWord);
    LowerCapital('О', "тмена");
    assert "Отмена" == ['О'] + "тмена";
  }

  /** As intended, "отмена" cancels in lower case and with a capital, and so does "/cancel". */
  lemma CancelWordAccepted()
    ensures Cancels(CancelWord) && Cancels("Отмена") && Cancels(CancelCommand)
  {
    LowerNoUpper(CancelWord);
    LowerNoUpper(CancelCommand);
    CapitalCancelAccepted();
  }

  /** The capitalised word lower-cases to the cancel word. */
  lemma CapitalCancelAccepted()
    ensures Lower("Отмена") == CancelWord
  {
    LowerCapital('О', "тмена");
    assert "Отмена" == ['О'] + "тмена";
  }

  // --------------------------------------------------- registration steps

  /** The registration prompts (their texts are not part of this model). */
  datatype RegPrompt = FullNamePrompt | UniversityPrompt | FacultyPrompt | GroupPrompt
                     | StudentCardPrompt | KafedraPrompt | TabNumberPrompt

  /** The message the registration session sends back. */
  datatype RegReply =
    | Cancelled
    | Ask(prompt: RegPrompt)
    | OptionsHint
    | LoadError(error: string)
    | Next(prompt: RegPrompt, options: seq<R.Choice>)
    | Registering(data: R.SessionData)
    | UnknownStep

  datatype Reg = Reg(effect: Effect<R.SessionData>, reply: RegReply)

  /** A step whose options are loaded: a load error ends the session, otherwise it is saved with the step's options. */
  function Loaded(d: R.SessionData, identity: R.Identity, prompt: RegPrompt): Reg {
    match R.LoadSpec(d, Some(identity))
    case LoadFailed(e) => Reg(Clear, LoadError(e))
    case Offer(o) => Reg(Store(d.(options := o)), Next(prompt, o))
    case NoOffer => Reg(Store(d.(options := [])), Next(prompt, []))
  }

  /**
   * The sessionRegistration handler on the restored session and the
   * message's text: the cancel test as written at any step, then the
   * current step's answer.
   */
  function RegistrationStep(d: R.SessionData, text: string, identity: R.Identity): Reg {
    var answer := TrimGo(text);
    if CancelsAsWritten(answer) then Reg(Clear, Cancelled)
    else if d.step == R.StepFullName then FullNameStep(d, answer, identity)
    else if R.CatalogueStep(d.step) then
      match R.SelectSpec(d.options, answer)
      case Err(_) => Reg(Keep, OptionsHint)
      case Ok(o) => ChoiceMade(d, o, identity)
    else if d.step == R.StepStudentCard || d.step == R.StepTabNumber then NumberStep(d, answer)
    else Reg(Clear, UnknownStep)
  }

  /** The full-name step: a blank answer asks again, a name moves on to the universities. */
  function FullNameStep(d: R.SessionData, answer: string, identity: R.Identity): Reg {
    if answer == "" then Reg(Keep, Ask(FullNamePrompt))
    else Loaded(d.(fullName := answer, step := R.StepUniversity), identity, UniversityPrompt)
  }

  /**
   * The option chosen at a catalogue step is stored; a university or a
   * faculty loads the next step's options, a group or a kafedra clears them.
   */
  function ChoiceMade(d: R.SessionData, o: R.Choice, identity: R.Identity): Reg {
    if d.step == R.StepUniversity then
      Loaded(d.(university := R.University(o.id, o.title, o.subtitle), step := R.StepFaculty), identity, FacultyPrompt)
    else if d.step == R.StepFaculty then
      if d.role == R.RoleStudent then Loaded(d.(faculty := R.Entity(o.id, o.title), step := R.StepGroup), identity, GroupPrompt)
      else Loaded(d.(faculty := R.Entity(o.id, o.title), step := R.StepKafedra), identity, KafedraPrompt)
    else if d.step == R.StepGroup then
      Reg(Store(d.(group := R.Group(o.id, o.title, o.subtitle), step := R.StepStudentCard, options := [])), Next(StudentCardPrompt, []))
    else
      Reg(Store(d.(kafedra := R.Entity(o.id, o.title), step := R.StepTabNumber, options := [])), Next(TabNumberPrompt, []))
  }

  /** The student-card or tab-number step: a blank answer asks again, anything else goes to completeRegistration. */
  function NumberStep(d: R.SessionData, answer: string): Reg {
    if d.step == R.StepStudentCard then
      if answer == "" then Reg(Keep, Ask(StudentCardPrompt)) else Reg(Clear, Registering(d.(studentCard := answer)))
    else
      if answer == "" then Reg(Keep, Ask(TabNumberPrompt)) else Reg(Clear, Registering(d.(tabNumber := answer)))
  }

  /** sessionRegistration on the restored session `s`. */
  method HandleRegistration(svc: AppBot.Service, s: R.RegistrationSession, userID: int, text: string,
                            identity: R.Identity, encode: R.SessionData -> seq<bv8>)
    returns (r: Reg)
    requires svc.Valid()
    modifies svc, s
    ensures svc.Valid()
    ensures r == RegistrationStep(old(s.Data()), text, identity)
    ensures svc.sessions == Applied(old(svc.sessions), userID, r.effect, SessionRegistration, None, encode)
    ensures r.effect.Store? ==> s.Data() == r.effect.data
  {
    var answer := TrimGo(text);
    var lower := Lower(answer);
    if lower == CancelWordAsWritten || lower == CancelCommand {
      svc.ClearSessionState(userID);
      return Reg(Clear, Cancelled);
    }
    if s.step == R.StepFullName {
      r := AnswerFullName(svc, s, userID, answer, identity, encode);
    } else if s.step == R.StepUniversity || s.step == R.StepFaculty || s.step == R.StepGroup || s.step == R.StepKafedra {
      r := AnswerChoice(svc, s, userID, answer, identity, encode);
    } else if s.step == R.StepStudentCard || s.step == R.StepTabNumber {
      r := AnswerNumber(svc, s, userID, answer);
    } else {
      svc.ClearSessionState(userID);
      r := Reg(Clear, UnknownStep);
    }
  }

  method AnswerFullName(svc: AppBot.Service, s: R.RegistrationSession, userID: int, answer: string,
                        identity: R.Identity, encode: R.SessionData -> seq<bv8>)
    returns (r: Reg)
    requires svc.Valid()
    modifies svc, s
    ensures svc.Valid()
    ensures r == FullNameStep(old(s.Data()), answer, identity)
    ensures svc.sessions == Applied(old(svc.sessions), userID, r.effect, SessionRegistration, None, encode)
    ensures r.effect.Store? ==> s.Data() == r.effect.data
  {
    if answer == "" {
      return Reg(Keep, Ask(FullNamePrompt));
    }
    s.fullName, s.step := answer, R.StepUniversity;
    r := LoadStep(svc, s, userID, identity, encode, UniversityPrompt);
  }

  /** A catalogue step: selectOption, then the choice is stored and the next step prepared. */
  method AnswerChoice(svc: AppBot.Service, s: R.RegistrationSession, userID: int, answer: string,
                      identity: R.Identity, encode: R.SessionData -> seq<bv8>)
    returns (r: Reg)
    requires svc.Valid()
    modifies svc, s
    ensures svc.Valid()
    ensures r == match R.SelectSpec(old(s.options), answer)
                 case Err(_) => Reg(Keep, OptionsHint)
                 case Ok(o) => ChoiceMade(old(s.Data()), o, identity)
    ensures svc.sessions == Applied(old(svc.sessions), userID, r.effect, SessionRegistration, None, encode)
    ensures r.effect.Store? ==> s.Data() == r.effect.data
  {
    var opt := s.SelectOption(answer);
    if opt.Err? {
      return Reg(Keep, OptionsHint);
    }
    r := StoreChoice(svc, s, userID, opt.value, identity, encode);
  }

  method StoreChoice(svc: AppBot.Service, s: R.RegistrationSession, userID: int, o: R.Choice,
                     identity: R.Identity, encode: R.SessionData -> seq<bv8>)
    returns (r: Reg)
    requires svc.Valid()
    modifies svc, s
    ensures svc.Valid()
    ensures r == ChoiceMade(old(s.Data()), o, identity)
    ensures svc.sessions == Applied(old(svc.sessions), userID, r.effect, SessionRegistration, None, encode)
    ensures r.effect.Store? ==> s.Data() == r.effect.data
  {
    if s.step == R.StepUniversity {
      s.university, s.step := R.University(o.id, o.title, o.subtitle), R.StepFaculty;
      r := LoadStep(svc, s, userID, identity, encode, FacultyPrompt);
    } else if s.step == R.StepFaculty {
      s.faculty := R.Entity(o.id, o.title);
      if s.role == R.RoleStudent {
        s.step := R.StepGroup;
        r := LoadStep(svc, s, userID, identity, encode, GroupPrompt);
      } else {
        s.step := R.StepKafedra;
        r := LoadStep(svc, s, userID, identity, encode, KafedraPrompt);
      }
    } else if s.step == R.StepGroup {
      s.group, s.step := R.Group(o.id, o.title, o.subtitle), R.StepStudentCard;
      s.ClearOptions();
      r := SaveStep(svc, s, userID, encode, StudentCardPrompt);
    } else {
      s.kafedra, s.step := R.Entity(o.id, o.title), R.StepTabNumber;
      s.ClearOptions();
      r := SaveStep(svc, s, userID, encode, TabNumberPrompt);
    }
  }

  /** The student-card or tab-number step. */
  method AnswerNumber(svc: AppBot.Service, s: R.RegistrationSession, userID: int, answer: string) returns (r: Reg)
    requires svc.Valid()
    modifies svc, s
    ensures svc.Valid()
    ensures r == NumberStep(old(s.Data()), answer)
    ensures !r.effect.Store?
    ensures svc.sessions == if r.effect.Keep? then old(svc.sessions) else old(svc.sessions) - {userID}
  {
    var prompt := if s.step == R.StepStudentCard then StudentCardPrompt else TabNumberPrompt;
    if answer == "" {
      return Reg(Keep, Ask(prompt));
    }
    if s.step == R.StepStudentCard {
      s.studentCard := answer;
    } else {
      s.tabNumber := answer;
    }
    svc.ClearSessionState(userID);
    return Reg(Clear, Registering(s.Data()));
  }

  /** LoadOptions for the step just chosen: an error ends the session, otherwise it is saved with the loaded options. */
  method LoadStep(svc: AppBot.Service, s: R.RegistrationSession, userID: int, identity: R.Identity,
                  encode: R.SessionData -> seq<bv8>, prompt: RegPrompt)
    returns (r: Reg)
    requires svc.Valid()
    modifies svc, s
    ensures svc.Valid()
    ensures r == Loaded(old(s.Data()), identity, prompt)
    ensures svc.sessions == Applied(old(svc.sessions), userID, r.effect, SessionRegistration, None, encode)
    ensures r.effect.Store? ==> s.Data() == r.effect.data
  {
    var err := s.LoadOptions(Some(identity));
    if err.Some? {
      svc.ClearSessionState(userID);
      return Reg(Clear, LoadError(err.value));
    }
    r := SaveStep(svc, s, userID, encode, prompt);
  }

  /** Saving the session and sending the next step's prompt with the session's options. */
  method SaveStep(svc: AppBot.Service, s: R.RegistrationSession, userID: int, encode: R.SessionData -> seq<bv8>, prompt: RegPrompt)
    returns (r: Reg)
    requires svc.Valid()
    modifies svc
    ensures svc.Valid()
    ensures r == Reg(Store(s.Data()), Next(prompt, s.options))
    ensures svc.sessions == Applied(old(svc.sessions), userID, r.effect, SessionRegistration, None, encode)
  {
    svc.SetSessionState(userID, AppBot.SessionState(SessionRegistration, None, Some(encode(s.Data()))));
    return Reg(Store(s.Data()), Next(prompt, s.options));
  }

  /** The step that follows a step of a registration for the role. */
  predicate Follows(role: string, from: string, to: string) {
    (from == R.StepFullName && to == R.StepUniversity)
    || (from == R.StepUniversity && to == R.StepFaculty)
    || (from == R.StepFaculty && to == (if role == R.RoleStudent then R.StepGroup else R.StepKafedra))
    || (from == R.StepGroup && to == R.StepStudentCard)
    || (from == R.StepKafedra && to == R.StepTabNumber)
  }

  /** A saved session has moved exactly one step forward along the role's path, and its role is unchanged. */
  lemma RegistrationMovesForward(d: R.SessionData, text: string, identity: R.Identity)
    ensures var r := RegistrationStep(d, text, identity);
            r.effect.Store? ==> Follows(d.role, d.step, r.effect.data.step) && r.effect.data.role == d.role
  {
  }

  /**
   * As written, the session is cancelled exactly when the answer, without
   * its surrounding blanks, is "/cancel" in any case; cancelling ends the
   * session at any step.
   */
  lemma RegistrationCancel(d: R.SessionData, text: string, identity: R.Identity)
    ensures RegistrationStep(d, text, identity).reply == Cancelled <==> Lower(TrimGo(text)) == CancelCommand
    ensures Lower(TrimGo(text)) == CancelCommand ==> RegistrationStep(d, text, identity) == Reg(Clear, Cancelled)
  {
    CancelWordUnreachable(TrimGo(text));
  }

  /**
   * As written, "отмена" at the full-name step is taken as the name: it is
   * stored and the university step begins, unless loading the universities
   * fails.
   */
  lemma CancelWordTakenAsFullName(d: R.SessionData, identity: R.Identity)
    requires d.step == R.StepFullName
    ensures var r := RegistrationStep(d, CancelWord, identity);
            && r.reply != Cancelled
            && ((r.effect.Clear? && r.reply.LoadError?)
                || (r.effect.Store? && r.effect.data.fullName == CancelWord && r.effect.data.step == R.StepUniversity))
  {
    TrimUnchanged(CancelWord, GoWs);
    CancelWordIgnoredAsWritten();
    R.LoadOutcome(d.(fullName := CancelWord, step := R.StepUniversity), Some(identity));
  }

  /** An empty full name keeps the step; a non-empty one is stored and the university step begins, unless loading fails. */
  lemma RegistrationFullName(d: R.SessionData, text: string, identity: R.Identity)
    requires d.step == R.StepFullName && !CancelsAsWritten(TrimGo(text))
    ensures Blank(text, GoWs) ==> RegistrationStep(d, text, identity) == Reg(Keep, Ask(FullNamePrompt))
    ensures !Blank(text, GoWs) ==>
              var r := RegistrationStep(d, text, identity);
              (r.effect.Clear? && r.reply.LoadError?)
              || (r.effect.Store? && r.effect.data.fullName == TrimGo(text) && r.effect.data.step == R.StepUniversity
                  && r.reply.Next? && r.reply.prompt == UniversityPrompt && r.reply.options == r.effect.data.options
                  && r.effect.data.options != [])
  {
    TrimEmptyIffBlank(text, GoWs);
    R.LoadOutcome(d.(fullName := TrimGo(text), step := R.StepUniversity), Some(identity));
  }

  /** At a step choosing from a list, an answer that picks no option asks again and changes nothing. */
  lemma RegistrationUnmatchedOption(d: R.SessionData, text: string, identity: R.Identity)
    requires R.CatalogueStep(d.step) && !CancelsAsWritten(TrimGo(text))
    requires R.SelectSpec(d.options, TrimGo(text)).Err?
    ensures RegistrationStep(d, text, identity) == Reg(Keep, OptionsHint)
  {
  }

  /** The chosen faculty leads students to their group and staff to their kafedra, each with the step's options. */
  lemma RegistrationFacultyBranch(d: R.SessionData, text: string, identity: R.Identity)
    requires d.step == R.StepFaculty && !CancelsAsWritten(TrimGo(text))
    requires R.SelectSpec(d.options, TrimGo(text)).Ok?
    ensures var o := R.SelectSpec(d.options, TrimGo(text)).value;
            var next := if d.role == R.RoleStudent then R.StepGroup else R.StepKafedra;
            var d1 := d.(faculty := R.Entity(o.id, o.title), step := next);
            var r := RegistrationStep(d, text, identity);
            (r.effect.Clear? <==> R.LoadSpec(d1, Some(identity)).LoadFailed?)
            && (r.effect.Store? ==> r.effect.data == d1.(options := R.LoadSpec(d1, Some(identity)).options))
  {
    R.LoadOutcome(d.(faculty := R.Entity(R.SelectSpec(d.options, TrimGo(text)).value.id,
                                         R.SelectSpec(d.options, TrimGo(text)).value.title),
                     step := if d.role == R.RoleStudent then R.StepGroup else R.StepKafedra), Some(identity));
  }

  /** Choosing the group or the kafedra moves to the student card or the tab number with the options cleared. */
  lemma RegistrationClearsOptions(d: R.SessionData, text: string, identity: R.Identity)
    requires (d.step == R.StepGroup || d.step == R.StepKafedra) && !CancelsAsWritten(TrimGo(text))
    requires R.SelectSpec(d.options, TrimGo(text)).Ok?
    ensures var r := RegistrationStep(d, text, identity);
            r.effect.Store? && r.effect.data.options == [] && r.reply.Next? && r.reply.options == []
            && r.effect.data.step == (if d.step == R.StepGroup then R.StepStudentCard else R.StepTabNumber)
  {
  }

  /**
   * A non-blank student card or tab number completes the registration with
   * the trimmed answer, and the session ends; a blank one asks again.
   */
  lemma RegistrationCompletes(d: R.SessionData, text: string, identity: R.Identity)
    requires (d.step == R.StepStudentCard || d.step == R.StepTabNumber) && !CancelsAsWritten(TrimGo(text))
    ensures Blank(text, GoWs) ==> RegistrationStep(d, text, identity).effect.Keep?
    ensures !Blank(text, GoWs) ==>
              var d1 := if d.step == R.StepStudentCard then d.(studentCard := TrimGo(text)) else d.(tabNumber := TrimGo(text));
              RegistrationStep(d, text, identity) == Reg(Clear, Registering(d1))
  {
    TrimEmptyIffBlank(text, GoWs);
  }

  /**
   * A student at the card step with every earlier choice made sends a
   * registration request, and the card in it is the answer without its
   * surrounding blanks.
   */
  lemma CompletedStudentRequest(d: R.SessionData, text: string, identity: R.Identity, userID: int)
    requires d.step == R.StepStudentCard && d.role == R.RoleStudent && !CancelsAsWritten(TrimGo(text)) && !Blank(text, GoWs)
    requires userID > 0 && d.fullName != "" && d.university.id != "" && d.university.name != ""
    requires d.faculty.id != "" && d.group.id != ""
    ensures var r := RegistrationStep(d, text, identity);
            r.effect.Clear? && r.reply.Registering? && R.RegisterSpec(true, userID, r.reply.data).Ok?
            && R.RegisterSpec(true, userID, r.reply.data).value.studentCard == TrimGo(text)
            && R.RegisterSpec(true, userID, r.reply.data).value.groupID == d.group.id
  {
    TrimEmptyIffBlank(text, GoWs);
    TrimIdempotent(text, GoWs);
    TrimEmptyIffBlank(TrimGo(text), GoWs);
    R.RegisterAccepts(userID, d.(studentCard := TrimGo(text)));
  }

  /** An unknown step ends the session. */
  lemma RegistrationUnknownStep(d: R.SessionData, text: string, identity: R.Identity)
    requires !CancelsAsWritten(TrimGo(text))
    requires d.step !in {R.StepFullName, R.StepUniversity, R.StepFaculty, R.StepGroup, R.StepStudentCard, R.StepKafedra, R.StepTabNumber}
    ensures RegistrationStep(d, text, identity) == Reg(Clear, UnknownStep)
  {
  }
}
