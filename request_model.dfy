/*
 * The records of the request workflow: a request, its type and status, and
 * the approval steps it owns.  Column defaults become constructor functions;
 * nullable columns become Option fields.  Database-generated values (the
 * autoincrement id, uuids, server timestamps) are passed in by the caller.
 */
module RequestModel {
  import opened Common

  datatype RequestType =
    | StudentCertificate
    | AcademicLeave
    | Transfer
    | Vacation
    | DocumentApproval

  function RequestTypeValue(t: RequestType): string {
    match t
    case StudentCertificate => "student_certificate"
    case AcademicLeave => "academic_leave"
    case Transfer => "transfer"
    case Vacation => "vacation"
    case DocumentApproval => "document_approval"
  }

  function ParseRequestType(s: string): (r: Option<RequestType>)
    ensures r.Some? ==> RequestTypeValue(r.value) == s
  {
    if s == "student_certificate" then Some(StudentCertificate)
    else if s == "academic_leave" then Some(AcademicLeave)
    else if s == "transfer" then Some(Transfer)
    else if s == "vacation" then Some(Vacation)
    else if s == "document_approval" then Some(DocumentApproval)
    else None
  }

  /** The five stored spellings are exactly the five request types. */
  lemma RequestTypeRoundTrip(t: RequestType, s: string)
    ensures ParseRequestType(RequestTypeValue(t)) == Some(t)
    ensures ParseRequestType(s).Some? <==> s in {"student_certificate", "academic_leave", "transfer", "vacation", "document_approval"}
  {
  }

  datatype RequestStatus = Pending | Approved | Rejected

  function RequestStatusValue(s: RequestStatus): string {
    match s
    case Pending => "pending"
    case Approved => "approved"
    case Rejected => "rejected"
  }

  function ParseRequestStatus(s: string): (r: Option<RequestStatus>)
    ensures r.Some? ==> RequestStatusValue(r.value) == s
  {
    if s == "pending" then Some(Pending)
    else if s == "approved" then Some(Approved)
    else if s == "rejected" then Some(Rejected)
    else None
  }

  lemma RequestStatusRoundTrip(st: RequestStatus, s: string)
    ensures ParseRequestStatus(RequestStatusValue(st)) == Some(st)
    ensures ParseRequestStatus(s).Some? <==> s in {"pending", "approved", "rejected"}
  {
  }

  datatype ApprovalAction = ActionPending | ActionApproved | ActionRejected

  function ApprovalActionValue(a: ApprovalAction): string {
    match a
    case ActionPending => "pending"
    case ActionApproved => "approved"
    case ActionRejected => "rejected"
  }

  function ParseApprovalAction(s: string): (r: Option<ApprovalAction>)
    ensures r.Some? ==> ApprovalActionValue(r.value) == s
  {
    if s == "pending" then Some(ActionPending)
    else if s == "approved" then Some(ActionApproved)
    else if s == "rejected" then Some(ActionRejected)
    else None
  }

  lemma ApprovalActionRoundTrip(a: ApprovalAction, s: string)
    ensures ParseApprovalAction(ApprovalActionValue(a)) == Some(a)
    ensures ParseApprovalAction(s).Some? <==> s in {"pending", "approved", "rejected"}
  {
  }

  /** A row of the requests table. The author is required; approver, reason, content and road may be null. */
  datatype Request = Request(
    id: int,
    requestType: RequestType,
    authorUserId: UserId,
    status: RequestStatus,
    content: Option<string>,
    rejectionReason: Option<string>,
    currentApproverId: Option<UserId>,
    approvalRoadId: Option<int>,
    createdAt: int,
    updatedAt: int)

  /**
   * A row of the request_approval_steps table. It belongs to exactly one
   * request (requestId); approver and role may be null.
   */
  datatype ApprovalStep = ApprovalStep(
    id: string,
    requestId: int,
    stepOrder: int,
    approverUserId: Option<UserId>,
    approverRole: Option<string>,
    action: ApprovalAction,
    comment: Option<string>,
    processedAt: Option<int>,
    createdAt: int)

  /**
   * A request row as inserted: status when none is given is PENDING, no
   * rejection reason yet, and both timestamps are the insertion time.
   */
  function NewRequest(id: int, t: RequestType, author: UserId, content: Option<string>,
                      status: Option<RequestStatus>, approver: Option<UserId>, now: int): (r: Request)
    ensures r.id == id && r.requestType == t && r.authorUserId == author && r.content == content
    ensures status.None? ==> r.status == Pending
    ensures status.Some? ==> r.status == status.value
    ensures r.currentApproverId == approver && r.rejectionReason.None? && r.approvalRoadId.None?
    ensures r.createdAt == now && r.updatedAt == now
  {
    Request(id, t, author, if status.Some? then status.value else Pending, content, None, approver, None, now, now)
  }

  /** A step row as inserted: its action defaults to PENDING, with no comment and no processing time. */
  function NewStep(id: string, requestId: int, order: int, approver: Option<UserId>,
                   role: Option<string>, now: int): (s: ApprovalStep)
    ensures s.action == ActionPending && s.comment.None? && s.processedAt.None?
    ensures s.requestId == requestId && s.stepOrder == order
    ensures s.approverUserId == approver && s.approverRole == role && s.createdAt == now
  {
    ApprovalStep(id, requestId, order, approver, role, ActionPending, None, None, now)
  }

  /** Closing a step: it leaves PENDING, and only then is processed_at set. */
  function CloseStep(s: ApprovalStep, action: ApprovalAction, comment: Option<string>, now: int): (r: ApprovalStep)
    requires action != ActionPending
    ensures r.action == action && r.comment == comment && r.processedAt == Some(now)
    ensures r.id == s.id && r.requestId == s.requestId && r.stepOrder == s.stepOrder
    ensures r.approverUserId == s.approverUserId && r.approverRole == s.approverRole && r.createdAt == s.createdAt
  {
    s.(action := action, comment := comment, processedAt := Some(now))
  }
}
