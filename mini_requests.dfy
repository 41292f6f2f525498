/**
 * The mini-app's views of a request: the card on the approval page
 * (src/pages/ApprovalPage/lib/transformRequest.ts) and the request detail
 * page (src/pages/RequestDetailPage/lib/transformRequestDetail.ts).
 */
module MiniRequests {
  import opened Common
  import opened MiniLib

  // --------------------------------------------------------------- statuses

  /** The statuses a request card can show. */
  datatype CardStatus = Pending | Approved | Rejected | Ready

  /** The key of each status in the status table. */
  function StatusName(s: CardStatus): string {
    match s
    case Pending => "pending"
    case Approved => "approved"
    case Rejected => "rejected"
    case Ready => "ready"
  }

  /**
   * mapStatus (the same table in both pages): a missing or empty status
   * shows as pending; otherwise the status is lower-cased and looked up,
   * and a name outside the table shows as pending too.
   */
  function MapStatus(status: Option<string>): (r: CardStatus)
    ensures !Truthy(status) ==> r == Pending
    ensures Truthy(status) ==> (r != Pending <==> Lower(status.value) in {"approved", "rejected", "ready"})
    ensures Truthy(status) ==> (r == Pending || StatusName(r) == Lower(status.value))
  {
    if !Truthy(status) then Pending
    else
      var name := Lower(status.value);
      if name == "approved" then Approved
      else if name == "rejected" then Rejected
      else if name == "ready" then Ready
      else Pending
  }

  /** Every status survives being sent by its name. */
  lemma StatusRoundTrip(s: CardStatus)
    ensures MapStatus(Some(StatusName(s))) == s
  {
    LowerNoUpper(StatusName(s));
  }

  /** The letter case of the status does not matter. */
  lemma StatusIgnoresCase(status: string)
    ensures MapStatus(Some(status)) == MapStatus(Some(Lower(status)))
  {
    LowerIdempotent(status);
  }

  // --------------------------------------------------------- request number

  /** String.prototype.padStart with a one-character filler. */
  function PadStart(s: string, width: nat, fill: char): (r: string)
    ensures |r| == if |s| >= width then |s| else width
    ensures r[|r| - |s|..] == s
    ensures forall k :: 0 <= k < |r| - |s| ==> r[k] == fill
  {
    if |s| >= width then s else seq(width - |s|, _ => fill) + s
  }

  /** The request number shown on both pages: "№" and the id padded to four digits with zeros. */
  function RequestNumber(id: int): string {
    "№" + PadStart(IntToString(id), 4, '0')
  }

  /** A run of zeros has the value zero. */
  lemma {:induction false} ZerosValue(z: string)
    requires forall k :: 0 <= k < |z| ==> z[k] == '0'
    ensures AllDigits(z) && DigitsValue(z) == 0
    decreases |z|
  {
    if z != [] {
      ZerosValue(z[..|z| - 1]);
    }
  }

  /** Leading zeros do not change the value of a number. */
  lemma {:induction false} LeadingZeros(z: string, s: string)
    requires forall k :: 0 <= k < |z| ==> z[k] == '0'
    requires AllDigits(s)
    ensures AllDigits(z + s) && DigitsValue(z + s) == DigitsValue(s)
    decreases |s|
  {
    ZerosValue(z);
    if s == [] {
      assert z + s == z;
    } else {
      var t := z + s;
      assert t[..|t| - 1] == z + s[..|s| - 1];
      LeadingZeros(z, s[..|s| - 1]);
    }
  }

  /** Numbers below 10000 have at most four digits. */
  lemma FourDigits(n: nat)
    requires n < 10000
    ensures |NatToString(n)| <= 4
  {
    if n >= 10 {
      assert n / 10 < 1000;
      if n / 10 >= 10 {
        assert n / 100 < 100;
        if n / 100 >= 10 {
          assert NatToString(n / 100) == NatToString(n / 1000) + [DigitChar(n / 100 % 10)];
        }
      }
    }
  }

  /**
   * The request number of a non-negative id is "№" followed by digits that
   * read back as the id; ids below 10000 take exactly four digits.
   */
  lemma RequestNumberReadsBack(id: nat)
    ensures var r := RequestNumber(id);
            r[0] == '№' && AllDigits(r[1..]) && DigitsValue(r[1..]) == id
            && |r| == 1 + (if |NatToString(id)| >= 4 then |NatToString(id)| else 4)
            && (id < 10000 ==> |r| == 5)
  {
    var d := NatToString(id);
    var p := PadStart(d, 4, '0');
    var z := p[..|p| - |d|];
    assert p == z + d;
    LeadingZeros(z, d);
    DigitsValueOfNatToString(id);
    assert RequestNumber(id)[1..] == p;
    if id < 10000 {
      FourDigits(id);
    }
  }

  /** Two requests never share a number. */
  lemma RequestNumberInjective(a: nat, b: nat)
    requires RequestNumber(a) == RequestNumber(b)
    ensures a == b
  {
    RequestNumberReadsBack(a);
    RequestNumberReadsBack(b);
  }

  // ------------------------------------------------------------ the card

  /** The fields of a request the approval page receives. */
  datatype ApprovalRequest = ApprovalRequest(id: int, createdAt: Option<string>, status: Option<string>, content: Option<string>)

  /** RequestCardViewModel. */
  datatype Card = Card(id: string, requestNumber: string, date: string, status: CardStatus, description: string)

  /**
   * transformRequestForCard: the id in decimal, its number, the formatted
   * creation date, the mapped status and the content, or the placeholder
   * when there is none.
   */
  function CardOf(request: ApprovalRequest, format: string -> Option<string>): (c: Card)
    ensures c.id == IntToString(request.id) && c.requestNumber == RequestNumber(request.id)
    ensures c.date == FormatDateTime(request.createdAt, format) && c.status == MapStatus(request.status)
    ensures Truthy(request.content) ==> c.description == request.content.value
    ensures !Truthy(request.content) ==> c.description == NotSpecified
    ensures c.description != ""
  {
    Card(IntToString(request.id), RequestNumber(request.id), FormatDateTime(request.createdAt, format),
         MapStatus(request.status), OrElse(request.content, NotSpecified))
  }

  // ------------------------------------------------------ the detail page

  /** The fields of a request the detail page receives. */
  datatype RequestDetail = RequestDetail(id: int, status: Option<string>, createdAt: Option<string>,
                                         content: Option<string>, authorFullName: Option<string>)

  /** StructuredContent: what a JSON content may name; a field left out is None. */
  datatype Structured = Structured(fullName: Option<string>, course: Option<string>, faculty: Option<string>,
                                   group: Option<string>, content: Option<string>, description: Option<string>)

  const NoStructure := Structured(None, None, None, None, None, None)

  /**
   * parseContent: an absent or empty content, and one that is not a JSON
   * object, has no structure. `decode` stands for JSON.parse followed by
   * the object check: None for malformed JSON and for values that are not
   * objects.
   */
  function ParseContent(value: Option<string>, decode: string -> Option<Structured>): (r: Structured)
    ensures !Truthy(value) ==> r == NoStructure
    ensures Truthy(value) ==> r == (if decode(value.value).Some? then decode(value.value).value else NoStructure)
  {
    if !Truthy(value) then NoStructure
    else match decode(value.value)
      case Some(s) => s
      case None => NoStructure
  }

  /** RequestDetailViewModel; the content may be missing. */
  datatype DetailView = DetailView(id: int, requestNumber: string, status: CardStatus, createdAt: string,
                                   fullName: string, course: string, faculty: string, group: string,
                                   content: Option<string>)

  /**
   * transformRequestDetailForPage: the name, course, faculty and group come
   * from the structured content when it has them; the name falls back to
   * the author's name and then the placeholder, the others to the empty
   * text; the content is the structured content, else its description,
   * else the raw content.
   */
  function DetailOf(request: RequestDetail, decode: string -> Option<Structured>, format: string -> Option<string>): (v: DetailView)
  {
    var s := ParseContent(request.content, decode);
    DetailView(request.id, RequestNumber(request.id), MapStatus(request.status),
               FormatDateTime(request.createdAt, format),
               OrElse(s.fullName, OrElse(request.authorFullName, NotSpecified)),
               OrElse(s.course, ""), OrElse(s.faculty, ""), OrElse(s.group, ""),
               if Truthy(s.content) then s.content
               else if Truthy(s.description) then s.description
               else request.content)
  }

  /** The detail page shows the same number and status as the card of the same request. */
  lemma DetailMatchesCard(request: RequestDetail, card: ApprovalRequest, decode: string -> Option<Structured>,
                          format: string -> Option<string>)
    requires card.id == request.id && card.status == request.status && card.createdAt == request.createdAt
    ensures var v := DetailOf(request, decode, format);
            var c := CardOf(card, format);
            v.requestNumber == c.requestNumber && v.status == c.status && v.createdAt == c.date
  {
  }

  /**
   * A plain-text content (JSON.parse rejects it or it is no object) is
   * shown as it is, under the author's name or the placeholder, with no
   * course, faculty or group.
   */
  lemma PlainContentShownAsIs(request: RequestDetail, decode: string -> Option<Structured>, format: string -> Option<string>)
    requires Truthy(request.content) && decode(request.content.value).None?
    ensures var v := DetailOf(request, decode, format);
            v.content == request.content && v.course == "" && v.faculty == "" && v.group == ""
            && v.fullName == OrElse(request.authorFullName, NotSpecified) && v.fullName != ""
  {
  }

  /** Fields the structured content fills take precedence over every fallback. */
  lemma StructuredContentWins(request: RequestDetail, decode: string -> Option<Structured>, format: string -> Option<string>)
    requires Truthy(request.content) && decode(request.content.value).Some?
    ensures var s := decode(request.content.value).value;
            var v := DetailOf(request, decode, format);
            (Truthy(s.fullName) ==> v.fullName == s.fullName.value)
            && (Truthy(s.course) ==> v.course == s.course.value)
            && (Truthy(s.faculty) ==> v.faculty == s.faculty.value)
            && (Truthy(s.group) ==> v.group == s.group.value)
            && (Truthy(s.content) ==> v.content == s.content)
            && (!Truthy(s.content) && Truthy(s.description) ==> v.content == s.description)
  {
  }
}
