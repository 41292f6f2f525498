/*
 * The bot's applications backend, without its HTTP half: the roles and
 * application types, mapping the role the backend reports, the backend
 * request type of each application type, the request content rendered from
 * the filled-in form, and the in-memory stub used when no backend URL is
 * configured.
 *
 * Decoding the JSON attachment list of a file field is a parameter: for a
 * text it gives None when it is not a JSON array, else one entry per array
 * item, None for an item that is not a file attachment.
 */
module BackendApplications {
  import opened Common
  import AppBot

  const RoleStudent := "student"
  const RoleTeacher := "teacher"

  const StudyCertificate := "study_certificate"
  const AcademicLeave := "academic_leave"
  const StudyTransfer := "study_transfer"
  const WorkCertificate := "work_certificate"

  // ------------------------------------------------------------------ roles

  /** mapBackendRole: the trimmed, lower-cased backend role as one of the two application roles. */
  function MapBackendRole(value: string): Result<string> {
    var role := Lower(TrimGo(value));
    if role == "student" then Ok(RoleStudent)
    else if role == "teacher" || role == "staff" || role == "admin" then Ok(RoleTeacher)
    else Err("unsupported backend role " + AppBot.Quote(value))
  }

  /** The mapped role is always one of the two; the error names the value as it came. */
  lemma MapBackendRoleOutcome(value: string)
    ensures MapBackendRole(value).Ok? ==> MapBackendRole(value).value in {RoleStudent, RoleTeacher}
    ensures MapBackendRole(value).Err? ==> MapBackendRole(value).error == "unsupported backend role \"" + value + "\""
  {
  }

  /** A value maps to the student role exactly when it is "student" up to case and surrounding whitespace. */
  lemma MapBackendRoleStudent(value: string)
    ensures MapBackendRole(value) == Ok(RoleStudent) <==> EqualFold(TrimGo(value), "student")
  {
    LowerNoUpper("student");
  }

  /** Surrounding whitespace does not change which role a value maps to. */
  lemma MapBackendRoleTrimmed(value: string)
    ensures MapBackendRole(TrimGo(value)).Ok? <==> MapBackendRole(value).Ok?
    ensures MapBackendRole(value).Ok? ==> MapBackendRole(TrimGo(value)) == MapBackendRole(value)
  {
    TrimIdempotent(value, GoWs);
  }

  /** Administrators file their applications as teachers, whatever the case of the word. */
  lemma MapBackendRoleAdmin()
    ensures MapBackendRole("Admin") == Ok(RoleTeacher)
  {
    var t := "Admin";
    TrimUnchanged(t, GoWs);
    LowerCapital('A', "dmin");
    assert t == ['A'] + "dmin";
  }

  /** So does staff written in capitals. */
  lemma MapBackendRoleStaff()
    ensures MapBackendRole("STAFF") == Ok(RoleTeacher)
  {
    var s := "STAFF";
    TrimUnchanged(s, GoWs);
    LowerAt(s);
    assert Lower(s) == "staff";
  }

  /** A role the bot does not know is an error. */
  lemma MapBackendRoleUnknown()
    ensures MapBackendRole("curator").Err?
  {
    var c := "curator";
    TrimUnchanged(c, GoWs);
    LowerNoUpper(c);
  }

  // ---------------------------------------------------------- request type

  /** applicationRequestType: the backend's request type for each application type. */
  const RequestTypes: map<string, string> := map[
    StudyCertificate := "student_certificate",
    AcademicLeave := "academic_leave",
    StudyTransfer := "transfer",
    WorkCertificate := "document_approval"]

  /** applicationTitles: the title opening the request content. */
  const Titles: map<string, string> := map[
    StudyCertificate := "Справка с места учебы",
    AcademicLeave := "Академический отпуск",
    StudyTransfer := "Перевод на другую программу",
    WorkCertificate := "Справка по месту работы"]

  /** fieldLabels: the label each known form field gets in the request content. */
  const FieldLabels: map<string, string> := map[
    "supporting_files" := "Подтверждающие документы",
    "reason_text" := "Причина",
    "gradebook_copy" := "Копия зачетной книжки",
    "target_program" := "Желаемая программа/направление"]

  /** Exactly the four application types have a backend request type, a work certificate being a document approval. */
  lemma RequestTypesShape()
    ensures RequestTypes.Keys == {StudyCertificate, AcademicLeave, StudyTransfer, WorkCertificate}
    ensures RequestTypes[WorkCertificate] == "document_approval" && RequestTypes[StudyTransfer] == "transfer"
    ensures RequestTypes[StudyCertificate] == "student_certificate" && RequestTypes[AcademicLeave] == "academic_leave"
  {
  }

  // ---------------------------------------------------------- attachments

  /** A file attachment as the messenger describes it. */
  datatype FileAttachment = FileAttachment(filename: string, token: string, size: int)

  /** The items of the decoded array that are attachments with a file name, in order. */
  function NamedFiles(items: seq<Option<FileAttachment>>): (r: seq<FileAttachment>)
    ensures forall f :: f in r <==> Some(f) in items && f.filename != ""
    ensures |r| <= |items|
  {
    if items == [] then []
    else
      var rest := NamedFiles(items[1..]);
      assert items == [items[0]] + items[1..];
      if items[0].Some? && items[0].value.filename != "" then [items[0].value] + rest else rest
  }

  /** decodeFileAttachmentPayload: nothing for a blank text or one that is not an array. */
  function DecodeAttachments(decode: string -> Option<seq<Option<FileAttachment>>>, data: string): (r: seq<FileAttachment>)
    ensures forall f :: f in r ==> f.filename != ""
    ensures Blank(data, GoWs) ==> r == []
  {
    TrimEmptyIffBlank(data, GoWs);
    var d := TrimGo(data);
    if d == "" then []
    else match decode(d)
         case None => []
         case Some(items) => NamedFiles(items)
  }

  /** One attachment in a rendered field value. */
  function FileText(f: FileAttachment): string {
    f.filename + " (token " + f.token + ")"
  }

  const NotFilled := "не указано"
  const FilesInMessenger := "прикреплены файлы (см. MAX)"
  const AttachmentsPrefix := "вложения: "

  /**
   * formatFieldValue: a blank value is "not filled in", a value starting
   * with "[" is a list of attachments, any other value is itself, trimmed.
   */
  function FormatFieldValue(decode: string -> Option<seq<Option<FileAttachment>>>, value: string): string {
    var v := TrimGo(value);
    if v == "" then NotFilled
    else if StartsWith(v, "[") then
      var files := DecodeAttachments(decode, v);
      if files == [] then FilesInMessenger
      else AttachmentsPrefix + Join(MapSeq(files, FileText), "; ")
    else v
  }

  /** The three renderings of a field value: never empty, and a plain text value is shown trimmed. */
  lemma FormatFieldValueCases(decode: string -> Option<seq<Option<FileAttachment>>>, value: string)
    ensures Blank(value, GoWs) ==> FormatFieldValue(decode, value) == NotFilled
    ensures !Blank(value, GoWs) && !StartsWith(TrimGo(value), "[") ==> FormatFieldValue(decode, value) == TrimGo(value)
    ensures !Blank(value, GoWs) && StartsWith(TrimGo(value), "[") ==>
              FormatFieldValue(decode, value) == FilesInMessenger || StartsWith(FormatFieldValue(decode, value), AttachmentsPrefix)
    ensures FormatFieldValue(decode, value) != ""
  {
    TrimEmptyIffBlank(value, GoWs);
  }

  // ------------------------------------------------------- request content

  /** The title of an application type, the type itself when it has none. */
  function Title(docType: string): (r: string)
    ensures docType !in Titles ==> r == docType
    ensures docType in Titles ==> r == Titles[docType]
  {
    var t := if docType in Titles then Titles[docType] else "";
    if t == "" then docType else t
  }

  /** The label of a field, the field's name when it has none. */
  function Label(key: string): (r: string)
    ensures key !in FieldLabels ==> r == key
    ensures key in FieldLabels ==> r == FieldLabels[key]
  {
    var l := if key in FieldLabels then FieldLabels[key] else "";
    if l == "" then key else l
  }

  function Header(docType: string): string {
    "Заявка: " + Title(docType) + "\n"
  }

  const NoData := "Дополнительные данные не заполнялись."
  const FieldsHeading := "\nПоля:\n"

  /** The order a map's keys were visited in: every key once. */
  ghost predicate KeyOrder(payload: map<string, string>, order: seq<string>) {
    Distinct(order) && forall k :: k in order <==> k in payload
  }

  /** sort.Strings. */
  function SortedKeys(order: seq<string>): seq<string> {
    InsertionSort(order, StrLess)
  }

  /** One numbered line of the content: "n) label: value". */
  function FieldLine(payload: map<string, string>, decode: string -> Option<seq<Option<FileAttachment>>>): (nat, string) -> string {
    (n: nat, key: string) => NatToString(n) + ") " + Label(key) + ": "
                             + FormatFieldValue(decode, if key in payload then payload[key] else "") + "\n"
  }

  /**
   * buildRequestContent with the map's keys visited in the given order: a
   * header, then the fixed sentence for an empty form, else the fields in
   * sorted key order, numbered from 1, the whole trimmed.
   */
  function ContentSpec(docType: string, payload: map<string, string>, order: seq<string>,
                       decode: string -> Option<seq<Option<FileAttachment>>>): string {
    if |payload| == 0 then Header(docType) + NoData
    else TrimGo(Header(docType) + FieldsHeading + Numbered(SortedKeys(order), FieldLine(payload, decode)))
  }

  /** buildRequestContent: the keys collected in visiting order, sorted in place, then written out one by one. */
  method BuildRequestContent(docType: string, payload: map<string, string>, order: seq<string>,
                             decode: string -> Option<seq<Option<FileAttachment>>>) returns (content: string)
    requires KeyOrder(payload, order)
    ensures content == ContentSpec(docType, payload, order, decode)
  {
    var header := Header(docType);
    if |payload| == 0 {
      return header + NoData;
    }
    var keys := new string[|order|](i requires 0 <= i < |order| => order[i]);
    assert keys[..] == order;
    InsertionSortInPlace(keys, StrLess);
    var lines := NumberedOf(keys[..], FieldLine(payload, decode));
    content := TrimGo(header + FieldsHeading + lines);
  }

  /** The content does not depend on the order the map's keys happened to be visited in. */
  lemma ContentOrderFree(docType: string, payload: map<string, string>, o1: seq<string>, o2: seq<string>,
                         decode: string -> Option<seq<Option<FileAttachment>>>)
    requires KeyOrder(payload, o1) && KeyOrder(payload, o2)
    ensures ContentSpec(docType, payload, o1, decode) == ContentSpec(docType, payload, o2, decode)
  {
    DistinctSameElements(o1, o2);
    SortIndependentOfOrder(o1, o2);
  }

  /** The fields are listed in increasing key order, each key of the form exactly once. */
  lemma ContentKeys(payload: map<string, string>, order: seq<string>)
    requires KeyOrder(payload, order)
    ensures OrderedBy(SortedKeys(order), StrLess)
    ensures Distinct(SortedKeys(order)) && |SortedKeys(order)| == |payload|
    ensures forall k :: k in SortedKeys(order) <==> k in payload
  {
    StrLessAsymmetric();
    InsertionSortOrdered(order, StrLess);
    InsertionSortPermutes(order, StrLess);
    DistinctPermutation(order, SortedKeys(order));
    SameMembers(order, SortedKeys(order));
    DistinctKeysCount(payload, order);
  }

  /** A list of the keys without repeats is as long as the map. */
  lemma DistinctKeysCount(payload: map<string, string>, order: seq<string>)
    requires KeyOrder(payload, order)
    ensures |order| == |payload|
  {
    var s := set k | k in order;
    assert s == payload.Keys;
    DistinctSetSize(order);
  }

  /** A list without repeats has as many elements as its set of members. */
  lemma {:induction false} DistinctSetSize(order: seq<string>)
    requires Distinct(order)
    ensures |set k | k in order| == |order|
    decreases |order|
  {
    if order != [] {
      var t := order[1..];
      assert Distinct(t) by {
        forall a, b | 0 <= a < b < |t| ensures t[a] != t[b] {
          assert t[a] == order[a + 1] && t[b] == order[b + 1];
        }
      }
      DistinctSetSize(t);
      assert order[0] !in t by {
        forall j | 0 <= j < |t| ensures t[j] != order[0] {
          assert t[j] == order[j + 1];
        }
      }
      assert (set k | k in order) == (set k | k in t) + {order[0]} by {
        assert order == [order[0]] + t;
      }
    }
  }

  /** An empty form is the header and the fixed sentence; any other starts with the header and the fields heading. */
  lemma ContentShape(docType: string, payload: map<string, string>, order: seq<string>,
                     decode: string -> Option<seq<Option<FileAttachment>>>)
    ensures |payload| == 0 ==> ContentSpec(docType, payload, order, decode) == "Заявка: " + Title(docType) + "\n" + NoData
    ensures |payload| != 0 ==> StartsWith(ContentSpec(docType, payload, order, decode), "Заявка: " + Title(docType) + "\n\nПоля:")
  {
    if |payload| != 0 {
      HeadingKept(Title(docType), Numbered(SortedKeys(order), FieldLine(payload, decode)));
    }
  }

  /** Trimming the content keeps its header and fields heading, whatever the lines after them. */
  lemma HeadingKept(title: string, lines: string)
    ensures StartsWith(TrimGo("Заявка: " + title + "\n" + FieldsHeading + lines), "Заявка: " + title + "\n\nПоля:")
  {
    var p := "Заявка: " + title + "\n\nПоля:";
    var rest := "\n" + lines;
    assert "Заявка: " + title + "\n" + FieldsHeading + lines == p + rest;
    assert !GoSpace(p[0]) && !GoSpace(p[|p| - 1]);
    TrimKeepsPrefix(p, rest, GoWs);
  }

  // ------------------------------------------------------------ submitting

  /** requestCreate: what SubmitApplication posts to the backend. */
  datatype RequestCreate = RequestCreate(requestType: string, content: string)

  /**
   * SubmitApplication up to the request it posts: the login's error first,
   * then an application type without a backend request type, which fails
   * before anything is sent.
   */
  function SubmitSpec(login: Result<string>, docType: string, payload: map<string, string>, order: seq<string>,
                      decode: string -> Option<seq<Option<FileAttachment>>>): (r: Result<RequestCreate>)
    ensures r.Ok? <==> login.Ok? && docType in RequestTypes
    ensures login.Ok? && docType !in RequestTypes ==> r == Err("unsupported application type " + AppBot.Quote(docType))
    ensures r.Ok? ==> r.value == RequestCreate(RequestTypes[docType], ContentSpec(docType, payload, order, decode))
  {
    if login.Err? then Err(login.error)
    else if docType !in RequestTypes then Err("unsupported application type " + AppBot.Quote(docType))
    else Ok(RequestCreate(RequestTypes[docType], ContentSpec(docType, payload, order, decode)))
  }

  // ------------------------------------------------------------------ stub

  /** The stub's ResolveRole: students for even user ids, teachers for odd ones. */
  function StubResolveRole(userID: int): (r: string)
    ensures r == RoleStudent <==> userID % 2 == 0
    ensures r == RoleTeacher <==> userID % 2 != 0
  {
    if userID % 2 == 0 then RoleStudent else RoleTeacher
  }

  /** Negative ids follow the same parity, although Go's remainder of a negative odd id is -1. */
  lemma StubRoleNegative()
    ensures StubResolveRole(-3) == RoleTeacher && StubResolveRole(-4) == RoleStudent
  {
  }

  /** Whether a field's value is an attachment list with at least one named file. */
  predicate Attached(decode: string -> Option<seq<Option<FileAttachment>>>, raw: string) {
    var d := TrimGo(raw);
    d != "" && StartsWith(d, "[") && DecodeAttachments(decode, d) != []
  }

  /** extractAttachments: the files of every field holding an attachment list with at least one named file. */
  function ExtractSpec(payload: map<string, string>, decode: string -> Option<seq<Option<FileAttachment>>>): map<string, seq<FileAttachment>> {
    map k | k in payload && Attached(decode, payload[k]) :: DecodeAttachments(decode, TrimGo(payload[k]))
  }

  /** Only fields holding "[" lists are kept, every kept file has a name, and each field keeps its own files. */
  lemma ExtractKeeps(payload: map<string, string>, decode: string -> Option<seq<Option<FileAttachment>>>)
    ensures forall k :: k in ExtractSpec(payload, decode) <==> k in payload && Attached(decode, payload[k])
    ensures forall k :: k in ExtractSpec(payload, decode) ==>
              (StartsWith(TrimGo(payload[k]), "[") && ExtractSpec(payload, decode)[k] != []
               && forall f :: f in ExtractSpec(payload, decode)[k] ==> f.filename != "")
  {
  }

  /** The loop over the payload in visiting order. */
  method ExtractAttachments(payload: map<string, string>, order: seq<string>,
                            decode: string -> Option<seq<Option<FileAttachment>>>) returns (result: map<string, seq<FileAttachment>>)
    requires KeyOrder(payload, order)
    ensures result == ExtractSpec(payload, decode)
  {
    result := map[];
    var i := 0;
    while i < |order|
      invariant 0 <= i <= |order|
      invariant forall k :: k in result <==> k in order[..i] && Attached(decode, payload[k])
      invariant forall k :: k in result ==> result[k] == DecodeAttachments(decode, TrimGo(payload[k]))
    {
      var field := order[i];
      assert order[..i + 1] == order[..i] + [field];
      var data := TrimGo(payload[field]);
      if data == "" || !StartsWith(data, "[") {
        i := i + 1;
        continue;
      }
      var files := DecodeAttachments(decode, data);
      if |files| == 0 {
        i := i + 1;
        continue;
      }
      result := result[field := files];
      i := i + 1;
    }
    assert order[..i] == order;
  }

  /** stubApplications: the attachments of the last submission of each user. */
  class StubApplications {
    var submissions: map<int, map<string, seq<FileAttachment>>>

    constructor()
      ensures submissions == map[]
    {
      submissions := map[];
    }

    /** SubmitApplication: a submission with attachments replaces the user's earlier one; one without leaves it. */
    method SubmitApplication(userID: int, role: string, docType: string, payload: map<string, string>, order: seq<string>,
                             decode: string -> Option<seq<Option<FileAttachment>>>)
      requires KeyOrder(payload, order)
      modifies this
      ensures submissions == if |ExtractSpec(payload, decode)| == 0 then old(submissions)
                             else old(submissions)[userID := ExtractSpec(payload, decode)]
      ensures |ExtractSpec(payload, decode)| != 0 ==> StoredFiles(userID) == Some(ExtractSpec(payload, decode))
    {
      var attachments := ExtractAttachments(payload, order, decode);
      if |attachments| == 0 {
        return;
      }
      submissions := submissions[userID := attachments];
    }

    /** StoredFiles: the files of the user's last submission with attachments, nil when there is none. */
    function StoredFiles(userID: int): (r: Option<map<string, seq<FileAttachment>>>)
      reads this
      ensures r.Some? <==> userID in submissions
    {
      if userID in submissions then Some(submissions[userID]) else None
    }
  }
}
