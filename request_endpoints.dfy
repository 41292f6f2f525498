/*
 * The HTTP layer over the request workflow: which calls answer 404 or 403,
 * how service errors become status codes, and when the bot is asked to tell
 * a user that a document is ready.  The bot call itself is fire-and-forget:
 * its failure is only logged.
 */
module RequestEndpoints {
  import opened Common
  import opened RequestModel
  import opened RequestService

  /** An HTTP answer: a body with its success code, or an error code with a detail text. */
  datatype Reply<T> = Success(code: int, body: T) | Failure(code: int, detail: string)

  /** What an endpoint leaves behind: the database, the answer, the ready notification sent (a max id), and a logged warning. */
  datatype Outcome = Outcome(db: Db, reply: Reply<Request>, notified: Option<int>, warning: Option<string>)

  /** An exception raised below an endpoint: a ValueError from the service or anything else. */
  datatype Raised = ValueError(msg: string) | OtherError(msg: string)

  /** The request types whose approval means a document is ready to collect. */
  predicate IsReadyType(t: RequestType) {
    t == StudentCertificate || t == DocumentApproval
  }

  /**
   * _notify_document_ready_if_needed: the max id the ready notification goes
   * to, or None when no notification is sent.  A missing or zero max id is
   * falsy, and a negative one is refused too.
   */
  function ReadyNotification(req: Request, maxId: Option<int>): (r: Option<int>)
    ensures r.Some? <==> IsReadyType(req.requestType) && req.status == Approved && maxId.Some? && maxId.value > 0
    ensures r.Some? ==> r == maxId
  {
    if !IsReadyType(req.requestType) then None
    else if req.status != Approved then None
    else if maxId.None? || maxId.value <= 0 then None
    else maxId
  }

  /** The warning logged when the bot refuses or cannot be reached; nothing else happens. */
  function NotifyWarning(req: Request, notified: Option<int>, botError: Option<string>): (r: Option<string>)
    ensures r.Some? <==> notified.Some? && botError.Some?
  {
    if notified.Some? && botError.Some?
    then Some("failed to notify bot about ready document " + IntToString(req.id) + ": " + botError.value)
    else None
  }

  /** _get_user_max_id: the user's max id when the user exists and it is set and non-zero. */
  function UserMaxId(d: Directory, u: UserId): (r: Option<int>)
    ensures r.Some? ==> r.value != 0 && exists i :: 0 <= i < |d.users| && d.users[i].id == u && d.users[i].maxId == r
    ensures (forall i :: 0 <= i < |d.users| ==> d.users[i].id != u) ==> r.None?
  {
    match FirstWhere(d.users, (x: User) => x.id == u)
    case None => None
    case Some(user) => if user.maxId.Some? && user.maxId.value != 0 then user.maxId else None
  }

  // ---------------------------------------------------------------------------
  // Error mapping
  // ---------------------------------------------------------------------------

  /** create: every exception becomes 400 with a prefixed message. */
  function CreateFailure(e: Raised): (r: Reply<Request>)
    ensures r.Failure? && r.code == 400
    ensures StartsWith(r.detail, "Ошибка при создании заявки: ") && EndsWith(r.detail, e.msg)
  {
    var prefix := "Ошибка при создании заявки: ";
    assert (prefix + e.msg)[..|prefix|] == prefix;
    assert (prefix + e.msg)[|prefix|..] == e.msg;
    Failure(400, prefix + e.msg)
  }

  /** approve and reject: a ValueError becomes 400 with its own message, anything else 500 with a prefixed one. */
  function ProcessFailure(e: Raised, prefix: string): (r: Reply<Request>)
    ensures r.Failure?
    ensures r.code == 400 <==> e.ValueError?
    ensures r.code == 500 <==> e.OtherError?
    ensures e.ValueError? ==> r.detail == e.msg
    ensures e.OtherError? ==> StartsWith(r.detail, prefix) && EndsWith(r.detail, e.msg)
  {
    match e
    case ValueError(msg) => Failure(400, msg)
    case OtherError(msg) =>
      assert (prefix + msg)[..|prefix|] == prefix;
      assert (prefix + msg)[|prefix|..] == msg;
      Failure(500, prefix + msg)
  }

  const ApprovePrefix := "Ошибка при одобрении заявки: "
  const RejectPrefix := "Ошибка при отклонении заявки: "

  // ---------------------------------------------------------------------------
  // Create, approve, reject
  // ---------------------------------------------------------------------------

  /** POST "": create the request, then notify the creator when it is already a ready document. */
  function CreateEndpoint(db: Db, d: Directory, t: RequestType, content: Option<string>, caller: User,
                          now: int, stepId: string, botError: Option<string>): (r: Outcome)
    ensures r.reply == Success(201, CreateSpec(db, d, t, content, caller.id, now, stepId).1)
    ensures r.db == CreateSpec(db, d, t, content, caller.id, now, stepId).0
    ensures r.notified == ReadyNotification(r.reply.body, caller.maxId)
  {
    var (db', req) := CreateSpec(db, d, t, content, caller.id, now, stepId);
    var notified := ReadyNotification(req, caller.maxId);
    Outcome(db', Success(201, req), notified, NotifyWarning(req, notified, botError))
  }

  /** POST /{id}/approve: approve, then notify the author when the request became a ready document. */
  function ApproveEndpoint(db: Db, d: Directory, id: int, caller: User, comment: Option<string>,
                           now: int, stepId: string, botError: Option<string>): (r: Outcome)
    ensures ApproveSpec(db, d, id, caller.id, comment, now, stepId).Err? ==>
              && r.db == db && r.notified.None?
              && r.reply == Failure(400, ApproveSpec(db, d, id, caller.id, comment, now, stepId).error)
    ensures ApproveSpec(db, d, id, caller.id, comment, now, stepId).Ok? ==>
              var db' := ApproveSpec(db, d, id, caller.id, comment, now, stepId).value;
              && r.db == db' && id in db'.requests
              && r.reply == Success(200, db'.requests[id])
              && r.notified == ReadyNotification(db'.requests[id], UserMaxId(d, db'.requests[id].authorUserId))
  {
    match ApproveSpec(db, d, id, caller.id, comment, now, stepId)
    case Err(e) => Outcome(db, ProcessFailure(ValueError(e), ApprovePrefix), None, None)
    case Ok(db') =>
      var req := db'.requests[id];
      var notified := ReadyNotification(req, UserMaxId(d, req.authorUserId));
      Outcome(db', Success(200, req), notified, NotifyWarning(req, notified, botError))
  }

  /** POST /{id}/reject: reject; no notification is ever sent. */
  function RejectEndpoint(db: Db, id: int, caller: User, reason: string, now: int): (r: Outcome)
    ensures r.notified.None? && r.warning.None?
    ensures RejectSpec(db, id, caller.id, reason, now).Err? ==>
              r.db == db && r.reply == Failure(400, RejectSpec(db, id, caller.id, reason, now).error)
    ensures RejectSpec(db, id, caller.id, reason, now).Ok? ==>
              var db' := RejectSpec(db, id, caller.id, reason, now).value;
              r.db == db' && id in db'.requests && r.reply == Success(200, db'.requests[id])
  {
    match RejectSpec(db, id, caller.id, reason, now)
    case Err(e) => Outcome(db, ProcessFailure(ValueError(e), RejectPrefix), None, None)
    case Ok(db') => Outcome(db', Success(200, db'.requests[id]), None, None)
  }

  /** The bot's answer never changes what the caller gets back or what is stored. */
  lemma BotFailureIsInvisible(db: Db, d: Directory, t: RequestType, id: int, content: Option<string>, caller: User,
                              comment: Option<string>, now: int, stepId: string, e1: Option<string>, e2: Option<string>)
    ensures var a := CreateEndpoint(db, d, t, content, caller, now, stepId, e1);
            var b := CreateEndpoint(db, d, t, content, caller, now, stepId, e2);
            a.db == b.db && a.reply == b.reply && a.notified == b.notified
    ensures var a := ApproveEndpoint(db, d, id, caller, comment, now, stepId, e1);
            var b := ApproveEndpoint(db, d, id, caller, comment, now, stepId, e2);
            a.db == b.db && a.reply == b.reply && a.notified == b.notified
  {
  }

  /** At creation only a student certificate can be ready, so only it notifies, and then whenever the creator has a positive max id. */
  lemma CreateNotifiesOnlyCertificates(db: Db, d: Directory, t: RequestType, content: Option<string>, caller: User,
                                       now: int, stepId: string, botError: Option<string>)
    ensures var r := CreateEndpoint(db, d, t, content, caller, now, stepId, botError);
            r.notified.Some? <==> t == StudentCertificate && caller.maxId.Some? && caller.maxId.value > 0
    ensures var r := CreateEndpoint(db, d, t, content, caller, now, stepId, botError);
            r.notified.Some? ==> r.notified == caller.maxId
  {
    if t == StudentCertificate {
      CreateCertificate(db, d, content, caller.id, now, stepId);
    } else {
      CreateRouted(db, d, t, content, caller.id, now, stepId);
    }
  }

  /**
   * On a valid database an approved document-approval request always
   * finishes at once (its route has one step), so its author is notified
   * whenever they have a positive max id; academic leave, transfer and
   * vacation never notify.
   */
  lemma ApproveNotifies(db: Db, d: Directory, id: int, caller: User, comment: Option<string>,
                        now: int, stepId: string, botError: Option<string>)
    requires Valid(db)
    requires ApproveSpec(db, d, id, caller.id, comment, now, stepId).Ok?
    ensures var r := ApproveEndpoint(db, d, id, caller, comment, now, stepId, botError);
            var author := db.requests[id].authorUserId;
            && (db.requests[id].requestType == DocumentApproval ==>
                  r.notified == (if UserMaxId(d, author).Some? && UserMaxId(d, author).value > 0 then UserMaxId(d, author) else None))
            && (db.requests[id].requestType != DocumentApproval ==> r.notified.None?)
  {
    ApproveOutcome(db, d, id, caller.id, comment, now, stepId);
    assert ValidLog(db.requests[id], db.steps[id]);
  }

  // ---------------------------------------------------------------------------
  // Detail and documents
  // ---------------------------------------------------------------------------

  /** A row of the request_documents table. */
  datatype Document = Document(id: string, requestId: int, filename: string, filePath: string)

  /** A document as returned, with the public URL of its file. */
  datatype DocumentRead = DocumentRead(doc: Document, fileUrl: string)

  /** The file URL: the static base with every trailing slash removed, a slash, and the stored path. */
  function FileUrl(staticUrl: string, path: string): (r: string)
    ensures var base := RStripChar(staticUrl, '/');
            r == base + "/" + path && (base == [] || base[|base| - 1] != '/')
  {
    RStripChar(staticUrl, '/') + "/" + path
  }

  /** get_request_documents with the file URLs added: the request's documents in table order. */
  function DocumentsOf(docs: seq<Document>, id: int, staticUrl: string): (r: seq<DocumentRead>)
    ensures |r| <= |docs|
    ensures forall x :: x in r ==> x.doc in docs && x.doc.requestId == id && x.fileUrl == FileUrl(staticUrl, x.doc.filePath)
    ensures forall x :: x in docs && x.requestId == id ==> DocumentRead(x, FileUrl(staticUrl, x.filePath)) in r
  {
    if docs == [] then []
    else
      var rest := DocumentsOf(docs[1..], id, staticUrl);
      (if docs[0].requestId == id then [DocumentRead(docs[0], FileUrl(staticUrl, docs[0].filePath))] else []) + rest
  }

  /** The detail view: the request, its documents, and its steps ordered by step_order. */
  datatype Detail = Detail(request: Request, documents: seq<DocumentRead>, steps: seq<ApprovalStep>)

  function StepOrder(s: ApprovalStep): int { s.stepOrder }

  /** GET /{id}: 404 unless the caller is the author or the current approver. */
  function DetailEndpoint(db: Db, docs: seq<Document>, id: int, caller: UserId, staticUrl: string): (r: Reply<Detail>)
    ensures r.Failure? <==> RequestDetail(db, id, caller).None?
    ensures r.Failure? ==> r.code == 404
    ensures r.Success? ==>
              && r.code == 200 && r.body.request == db.requests[id]
              && r.body.documents == DocumentsOf(docs, id, staticUrl)
              && SortedBy(r.body.steps, StepOrder)
              && multiset(r.body.steps) == multiset(Log(db, id))
  {
    match RequestDetail(db, id, caller)
    case None => Failure(404, "Заявка не найдена или нет доступа")
    case Some(req) => Success(200, Detail(req, DocumentsOf(docs, id, staticUrl), SortBy(Log(db, id), StepOrder)))
  }

  /** Ordering by step_order returns a valid log exactly as it was appended. */
  lemma DetailStepsOnValid(db: Db, docs: seq<Document>, id: int, caller: UserId, staticUrl: string)
    requires Valid(db)
    requires DetailEndpoint(db, docs, id, caller, staticUrl).Success?
    ensures DetailEndpoint(db, docs, id, caller, staticUrl).body.steps == db.steps[id]
  {
    var log := db.steps[id];
    assert ValidLog(db.requests[id], log);
    assert SortedBy(log, StepOrder);
    SortBySorted(log, StepOrder);
  }

  /** POST /{id}/documents, before the file is stored: 404 for an unknown request, 403 for anyone but its author. */
  function UploadGuard(db: Db, id: int, caller: UserId): (r: Option<Reply<Document>>)
    ensures r.None? <==> id in db.requests && db.requests[id].authorUserId == caller
    ensures r.Some? ==> r.value.Failure? && (r.value.code == 404 <==> id !in db.requests)
    ensures r.Some? ==> r.value.code == 404 || r.value.code == 403
  {
    if id !in db.requests then Some(Failure(404, "Заявка не найдена"))
    else if db.requests[id].authorUserId != caller then Some(Failure(403, "Вы можете загружать документы только к своим заявкам"))
    else None
  }

  /** GET /{id}/documents: 404 for an unknown request, 403 unless the caller is its author or current approver. */
  function DocumentsEndpoint(db: Db, docs: seq<Document>, id: int, caller: UserId, staticUrl: string): (r: Reply<seq<DocumentRead>>)
    ensures r.Success? <==> RequestDetail(db, id, caller).Some?
    ensures r.Failure? ==> (r.code == 404 <==> id !in db.requests) && (r.code == 404 || r.code == 403)
    ensures r.Success? ==> r.code == 200 && r.body == DocumentsOf(docs, id, staticUrl)
  {
    if id !in db.requests then Failure(404, "Заявка не найдена")
    else if db.requests[id].authorUserId != caller && db.requests[id].currentApproverId != Some(caller)
    then Failure(403, "Нет доступа к этой заявке")
    else Success(200, DocumentsOf(docs, id, staticUrl))
  }

  /** Everyone who may upload may also list, and the listing is the detail view's document list. */
  lemma UploaderMayList(db: Db, docs: seq<Document>, id: int, caller: UserId, staticUrl: string)
    requires UploadGuard(db, id, caller).None?
    ensures DocumentsEndpoint(db, docs, id, caller, staticUrl).Success?
    ensures DocumentsEndpoint(db, docs, id, caller, staticUrl).body == DetailEndpoint(db, docs, id, caller, staticUrl).body.documents
  {
  }
}
