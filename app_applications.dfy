/*
 * The bot's application forms: the fixed forms of each document type, the
 * form-filling session advanced one field per answer, the prompts shown at
 * each step, and handing a finished form to the applications backend.
 */
module AppApplications {
  import opened Common
  import AppBot
  import BackendApplications

  const KindText := "text"
  const KindFile := "file"

  /** applicationField: one step of a form; the caption is the field's label. */
  datatype Field = Field(name: string, caption: string, placeholder: string, required: bool, kind: string)

  datatype Form = Form(title: string, fields: seq<Field>)

  /** fixedApplicationForms: the two certificates have no fields; leave and transfer ask for files, then a text. */
  const FixedForms: map<string, Form> := map[
    BackendApplications.StudyCertificate := Form("Справка об обучении", []),
    BackendApplications.AcademicLeave := Form("Академический отпуск", [
      Field("supporting_files",
            "Чтобы мы могли начать обработку вашей заявки, пожалуйста, пришлите в этот чат фотографии или сканы документов, подтверждающих основание для ухода в академический отпуск (например, медицинская справка, повестка в армию и т.д.).",
            "", true, KindFile),
      Field("reason_text", "Опишите причину академического отпуска", "Например, длительное лечение", true, KindText)]),
    BackendApplications.StudyTransfer := Form("Перевод на другое направление", [
      Field("gradebook_copy", "Загрузите копию зачетной книжки", "", true, KindFile),
      Field("target_program", "Укажите факультет и направление, куда хотите перевестись",
            "Например, ФКН — Прикладная информатика", true, KindText)]),
    BackendApplications.WorkCertificate := Form("Справка с места работы", [])]

  /** The certificates are submitted without questions; leave and transfer ask for required files, then a required text. */
  lemma FixedFormsShape()
    ensures FixedForms.Keys == {BackendApplications.StudyCertificate, BackendApplications.AcademicLeave,
                                BackendApplications.StudyTransfer, BackendApplications.WorkCertificate}
    ensures FixedForms[BackendApplications.StudyCertificate].fields == []
    ensures FixedForms[BackendApplications.WorkCertificate].fields == []
    ensures forall t :: t in {BackendApplications.AcademicLeave, BackendApplications.StudyTransfer} ==>
              |FixedForms[t].fields| == 2
              && FixedForms[t].fields[0].kind == KindFile && FixedForms[t].fields[0].required
              && FixedForms[t].fields[1].kind == KindText && FixedForms[t].fields[1].required
  {
  }

  // ---------------------------------------------------------------- session

  /** applicationSessionData as a value: what the session payload holds between two messages. */
  datatype SessionData = SessionData(role: string, docType: string, formTitle: string,
                                     fields: seq<Field>, index: int, values: map<string, string>)

  /** currentField: the field at the index, none outside the form. */
  function CurrentField(d: SessionData): (r: Option<Field>)
    ensures r.None? <==> d.index < 0 || d.index >= |d.fields|
    ensures r.Some? ==> r.value == d.fields[d.index]
  {
    if d.index < 0 || d.index >= |d.fields| then None else Some(d.fields[d.index])
  }

  /** IsCompleted: the index has passed the last field. */
  predicate IsCompleted(d: SessionData) {
    d.index >= |d.fields|
  }

  /** A completed form has no current field; a form with no current field and a non-negative index is completed. */
  lemma CompletedNoField(d: SessionData)
    ensures IsCompleted(d) ==> CurrentField(d).None?
    ensures d.index >= 0 && CurrentField(d).None? ==> IsCompleted(d)
  {
  }

  function NotConfigured(docType: string): string {
    "application form " + AppBot.Quote(docType) + " is not configured"
  }

  /** PrepareSession: a fresh session of the type's form. */
  function PrepareSession(forms: map<string, Form>, role: string, docType: string): Result<SessionData> {
    if docType !in forms then Err(NotConfigured(docType))
    else Ok(SessionData(role, docType, forms[docType].title, forms[docType].fields, 0, map[]))
  }

  /**
   * An unknown type is an error; otherwise the session is at the first
   * field of the form with nothing answered, and a form without fields is
   * complete from the start.
   */
  lemma PrepareSessionStarts(forms: map<string, Form>, role: string, docType: string)
    ensures PrepareSession(forms, role, docType).Err? <==> docType !in forms
    ensures docType !in forms ==> PrepareSession(forms, role, docType) == Err(NotConfigured(docType))
    ensures PrepareSession(forms, role, docType).Ok? ==>
              var d := PrepareSession(forms, role, docType).value;
              d.role == role && d.docType == docType && d.formTitle == forms[docType].title
              && d.fields == forms[docType].fields && d.index == 0 && d.values == map[]
              && (IsCompleted(d) <==> forms[docType].fields == [])
              && (forms[docType].fields != [] ==> CurrentField(d) == Some(forms[docType].fields[0]))
  {
  }

  /** RecordAnswer on a value: the current field's answer is stored under its name and the index moves on by one. */
  function Recorded(d: SessionData, value: string): SessionData {
    match CurrentField(d)
    case None => d
    case Some(f) => d.(values := d.values[f.name := value], index := d.index + 1)
  }

  /** Recording stores the answer and advances by exactly one, and does nothing once the form is complete. */
  lemma RecordedAdvances(d: SessionData, value: string)
    ensures CurrentField(d).Some? ==>
              Recorded(d, value).index == d.index + 1 && Recorded(d, value).values == d.values[d.fields[d.index].name := value]
              && Recorded(d, value).fields == d.fields && Recorded(d, value).formTitle == d.formTitle
    ensures IsCompleted(d) ==> Recorded(d, value) == d
    ensures d.index < 0 ==> Recorded(d, value) == d
  {
  }

  /** Recording one answer per remaining field, from a field of the form, completes it. */
  function RecordAll(d: SessionData, answers: seq<string>): SessionData
    decreases |answers|
  {
    if answers == [] then d else RecordAll(Recorded(d, answers[0]), answers[1..])
  }

  lemma {:induction false} AnsweringCompletes(d: SessionData, answers: seq<string>)
    requires 0 <= d.index <= |d.fields| && |answers| == |d.fields| - d.index
    ensures IsCompleted(RecordAll(d, answers)) && RecordAll(d, answers).index == |d.fields|
    ensures RecordAll(d, answers).fields == d.fields
    decreases |answers|
  {
    if answers != [] {
      AnsweringCompletes(Recorded(d, answers[0]), answers[1..]);
    }
  }

  /** applicationSessionData as RecordAnswer mutates it in place. */
  class ApplicationSession {
    var role: string
    var docType: string
    var formTitle: string
    var fields: seq<Field>
    var index: int
    var values: map<string, string>

    function Data(): SessionData
      reads this
    {
      SessionData(role, docType, formTitle, fields, index, values)
    }

    /** A session restored from its payload. */
    constructor (d: SessionData)
      ensures Data() == d
    {
      role, docType, formTitle := d.role, d.docType, d.formTitle;
      fields, index, values := d.fields, d.index, d.values;
    }

    /** RecordAnswer (and RecordFileAnswer, whose body is the same). */
    method RecordAnswer(value: string)
      modifies this
      ensures Data() == Recorded(old(Data()), value)
    {
      if index < 0 || index >= |fields| {
        return;
      }
      var field := fields[index];
      values := values[field.name := value];
      index := index + 1;
    }
  }

  // ---------------------------------------------------------------- prompts

  /** Go's remainder, which takes the sign of the dividend. */
  function GoRem(n: int, m: nat): int
    requires m > 0
  {
    if n >= 0 then n % m else -((-n) % m)
  }

  /** pluralizeQuestions: the Russian plural of "question" for a count. */
  function Pluralize(n: int): string {
    if GoRem(n, 10) == 1 && GoRem(n, 100) != 11 then "вопрос"
    else if 2 <= GoRem(n, 10) <= 4 && (GoRem(n, 100) < 12 || GoRem(n, 100) > 14) then "вопроса"
    else "вопросов"
  }

  /** The plural depends only on the last two digits. */
  lemma PluralizePeriodic(n: nat)
    ensures Pluralize(n + 100) == Pluralize(n)
  {
    assert (n + 100) % 10 == n % 10 && (n + 100) % 100 == n % 100;
  }

  lemma PluralizeExamples()
    ensures Pluralize(0) == "вопросов" && Pluralize(1) == "вопрос" && Pluralize(2) == "вопроса"
    ensures Pluralize(5) == "вопросов" && Pluralize(11) == "вопросов" && Pluralize(12) == "вопросов"
    ensures Pluralize(21) == "вопрос" && Pluralize(22) == "вопроса" && Pluralize(111) == "вопросов"
  {
  }

  /** A negative count follows Go's remainder: -8 is not "вопроса", as a non-negative remainder would make it. */
  lemma PluralizeNegative()
    ensures Pluralize(-8) == "вопросов" && Pluralize(-1) == "вопросов"
    ensures (-8) % 10 == 2
  {
  }

  const RequiredMark := " [обязательно]"
  const FileHint := "\n\nОтправьте файл или несколько файлов следующим сообщением."
  const HintPrefix := "\nПодсказка: "

  function StepHeader(index: int, total: int): string {
    "Шаг " + IntToString(index + 1) + "/" + IntToString(total) + ".\n\n"
  }

  /** renderFieldPrompt: the step header and label, then the required mark, the file hint and the placeholder. */
  function RenderFieldPrompt(f: Field, index: int, total: int): string {
    StepHeader(index, total) + f.caption
    + (if f.required then RequiredMark else "")
    + (if f.kind == KindFile then FileHint else "")
    + (if f.placeholder != "" then HintPrefix + f.placeholder else "")
  }

  /** Each part is present exactly when the field asks for it, in the order of the source. */
  lemma RenderFieldPromptParts(f: Field, index: int, total: int)
    ensures StartsWith(RenderFieldPrompt(f, index, total), StepHeader(index, total) + f.caption)
    ensures f.placeholder != "" ==> EndsWith(RenderFieldPrompt(f, index, total), HintPrefix + f.placeholder)
    ensures f.required && f.kind != KindFile && f.placeholder == "" ==>
              EndsWith(RenderFieldPrompt(f, index, total), RequiredMark)
    ensures f.kind == KindFile && f.placeholder == "" ==> EndsWith(RenderFieldPrompt(f, index, total), FileHint)
    ensures !f.required && f.kind != KindFile && f.placeholder == "" ==>
              RenderFieldPrompt(f, index, total) == StepHeader(index, total) + f.caption
  {
    var head := StepHeader(index, total) + f.caption;
    var req := if f.required then RequiredMark else "";
    var file := if f.kind == KindFile then FileHint else "";
    var hint := if f.placeholder != "" then HintPrefix + f.placeholder else "";
    PromptAffixes(head, req, file, hint);
  }

  /** The four parts of a field prompt, as plain strings. */
  lemma PromptAffixes(head: string, req: string, file: string, hint: string)
    ensures StartsWith(head + req + file + hint, head)
    ensures EndsWith(head + req + file + hint, hint)
    ensures file == "" && hint == "" ==> EndsWith(head + req + file + hint, req)
    ensures hint == "" ==> EndsWith(head + req + file + hint, file)
  {
    assert head + req + file + hint == head + (req + file + hint);
    ConcatAffixes(head, req + file + hint);
    ConcatAffixes(head + req + file, hint);
    ConcatAffixes(head + req, file);
    ConcatAffixes(head, req);
  }

  /** The opening lines of a form: its title and how many questions it has. */
  function Intro(d: SessionData): string {
    "Открыта форма «" + d.formTitle + "».\n" + "Всего " + IntToString(|d.fields|) + " " + Pluralize(|d.fields|) + ".\n\n"
  }

  /** buildPrompt: nothing without a current field, else the field's prompt, after the intro for the first prompt. */
  function BuildPrompt(d: SessionData, includeIntro: bool): string {
    match CurrentField(d)
    case None => ""
    case Some(f) => (if includeIntro then Intro(d) else "") + RenderFieldPrompt(f, d.index, |d.fields|)
  }

  function StartPrompt(d: SessionData): string { BuildPrompt(d, true) }

  function NextPrompt(d: SessionData): string { BuildPrompt(d, false) }

  /** The prompt is empty exactly when there is no current field; the first prompt is the intro before the next one. */
  lemma PromptShape(d: SessionData)
    ensures NextPrompt(d) == "" <==> CurrentField(d).None?
    ensures StartPrompt(d) == "" <==> CurrentField(d).None?
    ensures CurrentField(d).Some? ==> StartPrompt(d) == Intro(d) + NextPrompt(d)
    ensures CurrentField(d).Some? ==>
              NextPrompt(d) == RenderFieldPrompt(d.fields[d.index], d.index, |d.fields|)
  {
    if CurrentField(d).Some? {
      var f := d.fields[d.index];
      assert |StepHeader(d.index, |d.fields|)| > 0;
      assert |RenderFieldPrompt(f, d.index, |d.fields|)| >= |StepHeader(d.index, |d.fields|)|;
    }
  }

  const GenericReminder := "Это поле обязательно для заполнения."

  /** ReminderForRequiredField: the field's label and its prompt again, or a generic line without a current field. */
  function Reminder(d: SessionData): string {
    match CurrentField(d)
    case None => GenericReminder
    case Some(f) => "Поле «" + f.caption + "» обязательно для заполнения.\n\n" + RenderFieldPrompt(f, d.index, |d.fields|)
  }

  lemma ReminderShape(d: SessionData)
    ensures CurrentField(d).None? ==> Reminder(d) == GenericReminder
    ensures CurrentField(d).Some? ==> EndsWith(Reminder(d), NextPrompt(d))
    ensures CurrentField(d).Some? ==> StartsWith(Reminder(d), "Поле «" + d.fields[d.index].caption + "»")
  {
    if CurrentField(d).Some? {
      var f := d.fields[d.index];
      var a := "Поле «" + f.caption + "»";
      var b := " обязательно для заполнения.\n\n";
      var c := RenderFieldPrompt(f, d.index, |d.fields|);
      assert Reminder(d) == a + b + c;
      assert (a + b + c)[..|a|] == a;
      assert (a + b + c)[|a + b + c| - |c|..] == c;
    }
  }

  // ------------------------------------------------------------- submitting

  /** What Submit hands to the backend. */
  datatype Submission = Submission(userID: int, role: string, docType: string, values: map<string, string>)

  const NoBackend := "application coordinator backend is not configured"

  /** Submit: an error without a backend, else the session's role, type and answers are delegated to it. */
  function SubmitSpec(hasBackend: bool, userID: int, d: SessionData): (r: Result<Submission>)
    ensures r.Err? <==> !hasBackend
    ensures r.Ok? ==> r.value.values == d.values && r.value.role == d.role && r.value.docType == d.docType
                      && r.value.userID == userID
  {
    if !hasBackend then Err(NoBackend) else Ok(Submission(userID, d.role, d.docType, d.values))
  }

  function SuccessMessage(title: string): string {
    "✅ Заявка принята!\n\nТип документа: " + title
    + "\nСтатус: ⌛️ Отправлена на обработку\n\nМы уведомим вас о результате в этом чате, как только получим ответ от отдела кадров."
  }
}
