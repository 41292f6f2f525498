/*
 * The bot's notify API: the HTTP server the backend posts to.  It parses the
 * user id out of the request path, validates single and bulk notifications
 * before any delivery, deduplicates bulk recipients, stops a bulk delivery at
 * the first failure, and guards every notify route with a bearer token.
 *
 * Requests arrive already decoded: a body that is not valid JSON is `None`.
 * The notifier is a parameter: each of its three calls answers with an error
 * message (`Some`) or with no error (`None`).  A reply records the status
 * code, the JSON body and the notifier calls the handler made.
 */
module HttpServer {
  import opened Common
  import BotNotify

  const MaxInt64 := 0x7FFF_FFFF_FFFF_FFFF
  const DefaultAddress := ":8080"

  const StatusOK := 200
  const StatusBadRequest := 400
  const StatusUnauthorized := 401
  const StatusInternalServerError := 500

  const ErrUserIdRequired := "user id is required"
  const ErrUserIdInvalid := "user id must be a positive integer"
  const ErrInvalidJson := "invalid JSON body"
  const ErrTextRequired := "text is required"
  const ErrSender := "sender_id must be a positive integer"
  const ErrNoRecipients := "user_ids must contain at least one recipient"
  const ErrDelivery := "failed to deliver notification"
  const ErrMissingBearer := "missing bearer token"
  const ErrInvalidToken := "invalid token"

  function ErrRecipient(idx: nat): string {
    "user_ids[" + IntToString(idx) + "] must be a positive integer"
  }

  /** What New keeps of its arguments: the address (":8080" when empty) and the trimmed token. */
  datatype Server = Server(addr: string, authToken: string)

  function New(address: string, authToken: string): Server {
    Server(if address == "" then DefaultAddress else address, TrimGo(authToken))
  }

  /** The notifier's three calls; `Some(message)` is an error. */
  datatype Notifier = Notifier(
    user: (int, string) -> Option<string>,
    ready: int -> Option<string>,
    tuition: int -> Option<string>)

  datatype Call = NotifyCall(userID: int, text: string) | ReadyCall(userID: int) | TuitionCall(userID: int)

  datatype Body = StatusBody(status: string) | ErrorBody(error: string) | BulkSentBody(status: string, recipients: nat)

  datatype Reply = Reply(code: int, body: Body, calls: seq<Call>)

  function BadRequest(msg: string): Reply { Reply(StatusBadRequest, ErrorBody(msg), []) }

  // ---------------------------------------------------------------- user ids

  /** strconv.ParseInt(s, 10, 64): a signed decimal that fits in 64 bits. */
  function ParseInt64(s: string): (r: Option<int>)
    ensures r.Some? ==> -MaxInt64 - 1 <= r.value <= MaxInt64 && ParseDecimal(s) == r
    ensures r.None? ==> ParseDecimal(s).None? || ParseDecimal(s).value < -MaxInt64 - 1 || ParseDecimal(s).value > MaxInt64
  {
    match ParseDecimal(s)
    case None => None
    case Some(v) => if -MaxInt64 - 1 <= v <= MaxInt64 then Some(v) else None
  }

  /** The part of the path after the prefix, the slashes around it removed. */
  function IdPart(path: string, prefix: string): string {
    TrimChar(TrimPrefix(path, prefix), '/')
  }

  /**
   * parseUserID: the id part must not be empty and must be a decimal that
   * fits in an int64 and is positive.
   */
  function ParseUserID(path: string, prefix: string): (r: Result<int>)
    ensures r == Err(ErrUserIdRequired) <==> IdPart(path, prefix) == ""
    ensures r == Err(ErrUserIdInvalid) <==>
              IdPart(path, prefix) != "" && !(ParseDecimal(IdPart(path, prefix)).Some? && 0 < ParseDecimal(IdPart(path, prefix)).value <= MaxInt64)
    ensures r.Ok? <==> ParseDecimal(IdPart(path, prefix)).Some? && 0 < ParseDecimal(IdPart(path, prefix)).value <= MaxInt64
    ensures r.Ok? ==> r.value == ParseDecimal(IdPart(path, prefix)).value
  {
    var idPart := IdPart(path, prefix);
    if idPart == "" then Err(ErrUserIdRequired)
    else
      match ParseInt64(idPart)
      case Some(v) => if v <= 0 then Err(ErrUserIdInvalid) else Ok(v)
      case None => Err(ErrUserIdInvalid)
  }

  /** The decimal rendering of a positive id, with or without a trailing slash, parses back to the id. */
  lemma ParseRendered(prefix: string, id: int, tail: string)
    requires 0 < id <= MaxInt64
    requires tail == "" || tail == "/"
    ensures ParseUserID(prefix + IntToString(id) + tail, prefix) == Ok(id)
  {
    var digits := IntToString(id);
    assert digits[0] != '/' && digits[|digits| - 1] != '/';
    IdPartOf(prefix, digits, tail);
    ParseIntToString(id);
  }

  /** The id part of a path is what follows the prefix, without the one trailing slash. */
  lemma IdPartOf(prefix: string, digits: string, tail: string)
    requires digits != [] && digits[0] != '/' && digits[|digits| - 1] != '/'
    requires tail == "" || tail == "/"
    ensures IdPart(prefix + digits + tail, prefix) == digits
  {
    var path := prefix + digits + tail;
    assert StartsWith(path, prefix) by { assert path[..|prefix|] == prefix; }
    assert TrimPrefix(path, prefix) == digits + tail;
    TrimCharUnchanged(digits, '/');
    if tail == "/" {
      assert LStripChar(digits + tail, '/') == digits + tail;
      assert (digits + tail)[..|digits + tail| - 1] == digits;
    } else {
      assert digits + tail == digits;
    }
  }

  /** Every path the backend's client builds for a user is read back as that user's id. */
  lemma PathsRoundTrip(id: int)
    requires 0 < id <= MaxInt64
    ensures ParseUserID(BotNotify.UserPath(id), "/notify/") == Ok(id)
    ensures ParseUserID(BotNotify.ReadyPath(id), "/notify/ready/") == Ok(id)
    ensures ParseUserID(BotNotify.TuitionPath(id), "/notify/payment/tuition/") == Ok(id)
  {
    ParseRendered("/notify/", id, "");
    assert "/notify/" + IntToString(id) + "" == BotNotify.UserPath(id);
    ParseRendered("/notify/ready/", id, "");
    assert "/notify/ready/" + IntToString(id) + "" == BotNotify.ReadyPath(id);
    ParseRendered("/notify/payment/tuition/", id, "");
    assert "/notify/payment/tuition/" + IntToString(id) + "" == BotNotify.TuitionPath(id);
  }

  /** A path that ends at the prefix names no user. */
  lemma MissingIdRequired(prefix: string)
    ensures ParseUserID(prefix, prefix) == Err(ErrUserIdRequired)
  {
    assert TrimPrefix(prefix, prefix) == [] by { assert StartsWith(prefix, prefix); }
  }

  /** A non-numeric id is refused as not a positive integer. */
  lemma LettersRefused(path: string)
    requires path == "/notify/abc"
    ensures ParseUserID(path, "/notify/") == Err(ErrUserIdInvalid)
  {
    assert StartsWith(path, "/notify/");
    var rest := TrimPrefix(path, "/notify/");
    assert rest == "abc";
    TrimCharUnchanged(rest, '/');
    assert !AllDigits(rest) by { assert !IsDigit(rest[0]); }
  }

  // ---------------------------------------------------------------- handlers

  /** handleNotify: id first, then the body, then a non-blank text; the text is sent untrimmed. */
  function HandleNotify(path: string, text: Option<string>, n: Notifier): (r: Reply)
    ensures r.calls == [] <==> ParseUserID(path, "/notify/").Err? || text.None? || TrimGo(text.value) == ""
    ensures r.calls != [] ==> r.calls == [NotifyCall(ParseUserID(path, "/notify/").value, text.value)]
    ensures r.code == StatusOK <==> r.calls != [] && n.user(r.calls[0].userID, text.value).None?
    ensures r.code == StatusInternalServerError <==> r.calls != [] && n.user(r.calls[0].userID, text.value).Some?
  {
    match ParseUserID(path, "/notify/")
    case Err(e) => BadRequest(e)
    case Ok(userID) =>
      if text.None? then BadRequest(ErrInvalidJson)
      else if TrimGo(text.value) == "" then BadRequest(ErrTextRequired)
      else if n.user(userID, text.value).Some? then
        Reply(StatusInternalServerError, ErrorBody(ErrDelivery), [NotifyCall(userID, text.value)])
      else Reply(StatusOK, StatusBody("sent"), [NotifyCall(userID, text.value)])
  }

  /** handleNotifyReady: an error whose message is empty counts as delivered. */
  function HandleNotifyReady(path: string, n: Notifier): (r: Reply)
    ensures r.calls == [] <==> ParseUserID(path, "/notify/ready/").Err?
    ensures r.calls != [] ==> r.calls == [ReadyCall(ParseUserID(path, "/notify/ready/").value)]
    ensures r.code == StatusInternalServerError <==>
              r.calls != [] && n.ready(r.calls[0].userID).Some? && n.ready(r.calls[0].userID).value != ""
  {
    match ParseUserID(path, "/notify/ready/")
    case Err(e) => BadRequest(e)
    case Ok(userID) =>
      var err := n.ready(userID);
      if err.Some? && err.value != "" then Reply(StatusInternalServerError, ErrorBody(ErrDelivery), [ReadyCall(userID)])
      else Reply(StatusOK, StatusBody("sent"), [ReadyCall(userID)])
  }

  /** handleNotifyTuitionReminder: any error fails the request. */
  function HandleNotifyTuition(path: string, n: Notifier): (r: Reply)
    ensures r.calls == [] <==> ParseUserID(path, "/notify/payment/tuition/").Err?
    ensures r.calls != [] ==> r.calls == [TuitionCall(ParseUserID(path, "/notify/payment/tuition/").value)]
    ensures r.code == StatusInternalServerError <==> r.calls != [] && n.tuition(r.calls[0].userID).Some?
  {
    match ParseUserID(path, "/notify/payment/tuition/")
    case Err(e) => BadRequest(e)
    case Ok(userID) =>
      if n.tuition(userID).Some? then Reply(StatusInternalServerError, ErrorBody(ErrDelivery), [TuitionCall(userID)])
      else Reply(StatusOK, StatusBody("sent"), [TuitionCall(userID)])
  }

  // -------------------------------------------------------------------- bulk

  /** The decoded bulk body; a missing field decodes as its zero value. */
  datatype BulkRequest = BulkRequest(text: string, senderId: int, userIds: seq<int>)

  predicate NonPositive(id: int) { id <= 0 }

  /** The first reason a bulk request is refused, checked in the handler's order. */
  function BulkInvalid(req: BulkRequest): (r: Option<string>)
    ensures r.None? <==> TrimGo(req.text) != "" && req.senderId > 0 && |req.userIds| > 0
                         && forall i :: 0 <= i < |req.userIds| ==> req.userIds[i] > 0
  {
    if TrimGo(req.text) == "" then Some(ErrTextRequired)
    else if req.senderId <= 0 then Some(ErrSender)
    else if |req.userIds| == 0 then Some(ErrNoRecipients)
    else
      match FindIndex(req.userIds, NonPositive)
      case Some(i) => Some(ErrRecipient(i))
      case None => None
  }

  /**
   * Delivery to each id in turn, stopping at the first failure: the calls
   * made and whether every one succeeded.
   */
  function SendAll(ids: seq<int>, text: string, n: Notifier): (r: (seq<Call>, bool))
    ensures |r.0| <= |ids|
    decreases |ids|
  {
    if ids == [] then ([], true)
    else if n.user(ids[0], text).Some? then ([NotifyCall(ids[0], text)], false)
    else
      var rest := SendAll(ids[1..], text, n);
      ([NotifyCall(ids[0], text)] + rest.0, rest.1)
  }

  /**
   * The calls of a delivery are the ids in order with the text; it succeeds
   * exactly when no id fails, and otherwise ends with the first id that fails.
   */
  lemma {:induction false} SendAllSpec(ids: seq<int>, text: string, n: Notifier)
    ensures var r := SendAll(ids, text, n);
            && (forall k :: 0 <= k < |r.0| ==> r.0[k] == NotifyCall(ids[k], text))
            && (r.1 <==> forall k :: 0 <= k < |ids| ==> n.user(ids[k], text).None?)
            && (r.1 ==> |r.0| == |ids|)
            && (!r.1 ==> |r.0| > 0 && n.user(ids[|r.0| - 1], text).Some?
                         && forall k :: 0 <= k < |r.0| - 1 ==> n.user(ids[k], text).None?)
    decreases |ids|
  {
    if ids != [] && n.user(ids[0], text).None? {
      SendAllSpec(ids[1..], text, n);
      var rest := SendAll(ids[1..], text, n);
      assert forall k :: 1 <= k < |ids| ==> ids[1..][k - 1] == ids[k];
    }
  }

  /** handleNotifyBulk as a function of the decoded body. */
  function BulkSpec(body: Option<BulkRequest>, n: Notifier): Reply {
    if body.None? then BadRequest(ErrInvalidJson)
    else
      var req := body.value;
      match BulkInvalid(req)
      case Some(e) => BadRequest(e)
      case None =>
        var unique := Dedup(req.userIds);
        var sent := SendAll(unique, TrimGo(req.text), n);
        if sent.1 then Reply(StatusOK, BulkSentBody("sent", |unique|), sent.0)
        else Reply(StatusInternalServerError, ErrorBody(ErrDelivery), sent.0)
  }

  /** handleNotifyBulk: validation, one dedup pass with a seen set, then delivery in order. */
  method HandleNotifyBulk(body: Option<BulkRequest>, n: Notifier) returns (r: Reply)
    ensures r == BulkSpec(body, n)
  {
    if body.None? {
      return BadRequest(ErrInvalidJson);
    }
    var text := TrimGo(body.value.text);
    var senderId := body.value.senderId;
    var ids := body.value.userIds;
    if text == "" {
      return BadRequest(ErrTextRequired);
    }
    if senderId <= 0 {
      return BadRequest(ErrSender);
    }
    if |ids| == 0 {
      return BadRequest(ErrNoRecipients);
    }
    var bad, unique := UniqueRecipients(ids);
    if bad.Some? {
      return BadRequest(ErrRecipient(bad.value));
    }
    var calls, ok := Deliver(unique, text, n);
    if !ok {
      return Reply(StatusInternalServerError, ErrorBody(ErrDelivery), calls);
    }
    return Reply(StatusOK, BulkSentBody("sent", |unique|), calls);
  }

  /** The recipient loop: the first non-positive id, or else the ids without repeats. */
  method UniqueRecipients(ids: seq<int>) returns (bad: Option<nat>, unique: seq<int>)
    ensures bad == FindIndex(ids, NonPositive)
    ensures bad.None? ==> unique == Dedup(ids)
  {
    unique := [];
    var seen: set<int> := {};
    var idx := 0;
    while idx < |ids|
      invariant 0 <= idx <= |ids|
      invariant forall j :: 0 <= j < idx ==> !NonPositive(ids[j])
      invariant unique + DedupFrom(ids[idx..], seen) == Dedup(ids)
    {
      var userID := ids[idx];
      if userID <= 0 {
        FirstIndexAt(ids, NonPositive, idx);
        return Some(idx), unique;
      }
      DedupStep(ids, idx, seen);
      if userID !in seen {
        var rest := DedupFrom(ids[idx + 1..], seen + {userID});
        assert (unique + [userID]) + rest == unique + ([userID] + rest);
        seen := seen + {userID};
        unique := unique + [userID];
      }
      idx := idx + 1;
    }
    assert ids[idx..] == [];
    return None, unique;
  }

  /** The delivery loop: one notifier call per id, returning at the first error. */
  method Deliver(ids: seq<int>, text: string, n: Notifier) returns (calls: seq<Call>, ok: bool)
    ensures (calls, ok) == SendAll(ids, text, n)
  {
    calls := [];
    var k := 0;
    while k < |ids|
      invariant 0 <= k <= |ids|
      invariant calls + SendAll(ids[k..], text, n).0 == SendAll(ids, text, n).0
      invariant SendAll(ids[k..], text, n).1 == SendAll(ids, text, n).1
    {
      var here := SendAll(ids[k..], text, n);
      assert ids[k..][0] == ids[k];
      assert ids[k..][1..] == ids[k + 1..];
      if n.user(ids[k], text).Some? {
        assert here == ([NotifyCall(ids[k], text)], false);
        calls := calls + [NotifyCall(ids[k], text)];
        return calls, false;
      }
      var next := SendAll(ids[k + 1..], text, n);
      assert here == ([NotifyCall(ids[k], text)] + next.0, next.1);
      calls := calls + [NotifyCall(ids[k], text)];
      k := k + 1;
    }
    assert ids[k..] == [];
    assert SendAll(ids[k..], text, n) == ([], true);
    assert calls + [] == calls;
    return calls, true;
  }

  /**
   * A refused bulk request calls the notifier for nobody.  An accepted one
   * notifies each distinct id once, in first-occurrence order, with the
   * trimmed text: all of them and "recipients" is their number, or up to
   * and including the first failure, which answers 500.
   */
  lemma BulkOutcome(body: Option<BulkRequest>, n: Notifier)
    ensures var r := BulkSpec(body, n);
            && (r.code == StatusBadRequest <==> body.None? || BulkInvalid(body.value).Some?)
            && (r.code == StatusBadRequest ==> r.calls == [])
            && (r.code != StatusBadRequest ==>
                  var unique := Dedup(body.value.userIds);
                  && Distinct(unique)
                  && (forall x :: x in unique <==> x in body.value.userIds)
                  && |r.calls| <= |unique|
                  && (forall k :: 0 <= k < |r.calls| ==> r.calls[k] == NotifyCall(unique[k], TrimGo(body.value.text)))
                  && (r.code == StatusOK <==> |r.calls| == |unique|
                                              && forall k :: 0 <= k < |unique| ==> n.user(unique[k], TrimGo(body.value.text)).None?)
                  && (r.code == StatusOK ==> r.body == BulkSentBody("sent", |unique|))
                  && (r.code != StatusOK ==> r.code == StatusInternalServerError
                                             && n.user(unique[|r.calls| - 1], TrimGo(body.value.text)).Some?))
  {
    if body.Some? && BulkInvalid(body.value).None? {
      SendAllSpec(Dedup(body.value.userIds), TrimGo(body.value.text), n);
    }
  }

  /** The delivery of the bulk test: ids [1, 2, 2] reach 1 and 2 once each with the trimmed text. */
  lemma BulkDedupExample(body: Option<BulkRequest>, n: Notifier)
    requires body == Some(BulkRequest(" bulk message ", 12, [1, 2, 2]))
    requires forall id, t :: n.user(id, t) == None
    ensures BulkSpec(body, n) == Reply(StatusOK, BulkSentBody("sent", 2),
                                       [NotifyCall(1, "bulk message"), NotifyCall(2, "bulk message")])
  {
    PaddedText(body.value.text, "bulk message");
    DedupOneTwoTwo(body.value.userIds);
    SendTwo(1, 2, "bulk message", n);
    assert BulkInvalid(body.value).None?;
  }

  lemma PaddedText(x: string, mid: string)
    requires x == " bulk message " && mid == "bulk message"
    ensures TrimGo(x) == mid
  {
    assert x == " " + mid + " ";
    TrimPadded(" ", mid, " ", GoWs);
  }

  lemma DedupOneTwoTwo(ids: seq<int>)
    requires ids == [1, 2, 2]
    ensures Dedup(ids) == [1, 2]
  {
    DedupStep(ids, 0, {});
    DedupStep(ids, 1, {1});
    DedupStep(ids, 2, {1, 2});
    assert ids[3..] == [];
    assert ids[0..] == ids;
  }

  lemma SendTwo(a: int, b: int, text: string, n: Notifier)
    requires n.user(a, text).None? && n.user(b, text).None?
    ensures SendAll([a, b], text, n) == ([NotifyCall(a, text), NotifyCall(b, text)], true)
  {
    assert [a, b][1..] == [b];
    assert [b][1..] == [];
    assert SendAll([], text, n) == ([], true);
    assert [NotifyCall(b, text)] + [] == [NotifyCall(b, text)];
    assert SendAll([b], text, n) == ([NotifyCall(b, text)], true);
    assert [NotifyCall(a, text)] + [NotifyCall(b, text)] == [NotifyCall(a, text), NotifyCall(b, text)];
  }

  /** A notifier that always fails stops a bulk delivery after its first recipient. */
  lemma BulkStopsAtFirstFailure(body: Option<BulkRequest>, n: Notifier)
    requires body == Some(BulkRequest("hi", 3, [10, 11]))
    requires forall id, t :: n.user(id, t) == Some("boom")
    ensures BulkSpec(body, n) == Reply(StatusInternalServerError, ErrorBody(ErrDelivery), [NotifyCall(10, "hi")])
  {
    TrimUnchanged(body.value.text, GoWs);
    var ids := body.value.userIds;
    assert Dedup(ids) == [10, 11] by { assert ids[1..] == [11]; }
    assert BulkInvalid(body.value).None?;
  }

  /**
   * A bulk body built by the backend's client for a positive sender and a
   * non-blank text passes the bot's validation; its ids are already
   * distinct, so the bot notifies exactly the recipients the backend counted.
   */
  lemma BackendBulkAccepted(config: BotNotify.Config, senderMaxId: int, userIds: seq<int>, text: string)
    requires BotNotify.NotifyBulk(config, senderMaxId, userIds, text).Ok?
    requires senderMaxId > 0 && TrimPy(text) != ""
    ensures var sent := BotNotify.NotifyBulk(config, senderMaxId, userIds, text).value;
            && sent.0.body.BulkBody?
            && var req := BulkRequest(sent.0.body.bulk.text, sent.0.body.bulk.senderId, sent.0.body.bulk.userIds);
            && BulkInvalid(req).None?
            && Dedup(req.userIds) == req.userIds
            && |req.userIds| == sent.1
  {
    var ids := BotNotify.Normalized(userIds);
    var t := TrimPy(text);
    BulkBodyOf(config, senderMaxId, userIds, text);
    TrimGoOfTrimPy(text);
    assert forall k :: 0 <= k < |ids| ==> ids[k] > 0 by {
      forall k | 0 <= k < |ids| ensures ids[k] > 0 { assert ids[k] in ids; }
    }
    assert BulkInvalid(BulkRequest(t, senderMaxId, ids)).None?;
    DedupDistinct(ids, {});
  }

  /** What the backend's bulk request carries. */
  lemma BulkBodyOf(config: BotNotify.Config, senderMaxId: int, userIds: seq<int>, text: string)
    requires BotNotify.NotifyBulk(config, senderMaxId, userIds, text).Ok?
    ensures var sent := BotNotify.NotifyBulk(config, senderMaxId, userIds, text).value;
            && sent.0.body == BotNotify.BulkBody(BotNotify.BulkPayload(TrimPy(text), senderMaxId, BotNotify.Normalized(userIds)))
            && sent.1 == |BotNotify.Normalized(userIds)| > 0
  {
    BotNotify.NotifyBulkOutcome(config, senderMaxId, userIds, text);
  }

  /** A text without Python whitespace at its ends has no Go whitespace there either. */
  lemma TrimGoOfTrimPy(s: string)
    ensures TrimGo(TrimPy(s)) == TrimPy(s)
  {
    var t := TrimPy(s);
    TrimWithSpec(s, PyWs);
    if t != [] {
      TrimUnchanged(t, GoWs);
    }
  }

  // ------------------------------------------------------------------- auth

  datatype Gate = Pass | Deny(message: string)

  /** withAuth: a case-insensitive "bearer " prefix and then exactly the configured token. */
  function WithAuth(authToken: string, header: string): Gate {
    var authz := TrimGo(header);
    if !StartsWith(Lower(authz), "bearer ") then Deny(ErrMissingBearer)
    else if TrimGo(authz[|"Bearer "|..]) != authToken then Deny(ErrInvalidToken)
    else Pass
  }

  /** guard: no check at all when no token is configured. */
  function Guard(server: Server, header: string): Gate {
    if server.authToken == "" then Pass else WithAuth(server.authToken, header)
  }

  /** A request passes withAuth only as a bearer scheme in any case followed by the token. */
  lemma AuthSound(authToken: string, header: string)
    requires WithAuth(authToken, header) == Pass
    ensures exists scheme, rest :: TrimGo(header) == scheme + rest && Lower(scheme) == "bearer " && TrimGo(rest) == authToken
  {
    var authz := TrimGo(header);
    var scheme := authz[..7];
    assert Lower(authz)[..7] == "bearer ";
    LowerConcat(scheme, authz[7..]);
    assert authz == scheme + authz[7..];
    assert Lower(authz) == Lower(scheme) + Lower(authz[7..]);
  }

  /** Any spelling of the bearer scheme followed by the token passes withAuth. */
  lemma AuthAccepts(authToken: string, scheme: string, header: string)
    requires authToken != [] && !GoSpace(authToken[0]) && !GoSpace(authToken[|authToken| - 1])
    requires Lower(scheme) == "bearer " && header == scheme + authToken
    ensures WithAuth(authToken, header) == Pass
  {
    LowerAt(scheme);
    assert !GoSpace(scheme[0]) by { assert LowerChar(scheme[0]) == 'b'; }
    assert header[|header| - 1] == authToken[|authToken| - 1];
    TrimUnchanged(header, GoWs);
    TrimUnchanged(authToken, GoWs);
    AuthSplit(authToken, scheme, authToken, header);
  }

  /** withAuth on an untrimmable header made of a bearer scheme and a rest compares the trimmed rest. */
  lemma AuthSplit(authToken: string, scheme: string, rest: string, header: string)
    requires Lower(scheme) == "bearer " && header == scheme + rest && TrimGo(header) == header
    ensures WithAuth(authToken, header) == if TrimGo(rest) == authToken then Pass else Deny(ErrInvalidToken)
  {
    LowerConcat(scheme, rest);
    assert Lower(header)[..7] == Lower(scheme);
    assert header[7..] == rest;
  }

  /** The server without a configured token lets every request through. */
  lemma OpenServer(address: string, authToken: string, header: string)
    requires Blank(authToken, GoWs)
    ensures Guard(New(address, authToken), header) == Pass
  {
    TrimEmptyIffBlank(authToken, GoWs);
  }

  /** The header the backend's client sends is accepted by a server configured with the same token. */
  lemma BackendHeaderAccepted(address: string, token: string)
    requires TrimPy(token) != ""
    ensures var hs := BotNotify.Headers(token);
            |hs| == 1 && Guard(New(address, TrimPy(token)), hs[0].1) == Pass
  {
    var t := TrimPy(token);
    TrimWithSpec(token, PyWs);
    TrimGoOfTrimPy(token);
    assert "Bearer " == "B" + "earer ";
    assert Lower("Bearer ") == "bearer " by {
      LowerAt("Bearer ");
    }
    AuthAccepts(t, "Bearer ", "Bearer " + t);
  }

  /** The three cases of the authentication test. */
  lemma AuthExamples(token: string)
    requires token == "test-token"
    ensures WithAuth(token, "") == Deny(ErrMissingBearer)
    ensures WithAuth(token, "Bearer wrong") == Deny(ErrInvalidToken)
    ensures WithAuth(token, "Bearer test-token") == Pass
  {
    assert TrimGo("") == "";
    AuthWrong(token, "Bearer wrong");
    AuthRight(token, "Bearer ", "Bearer test-token");
  }

  lemma LowerBearer(scheme: string)
    requires scheme == "Bearer "
    ensures Lower(scheme) == "bearer "
  {
    LowerAt(scheme);
  }

  lemma AuthRight(token: string, scheme: string, header: string)
    requires token == "test-token" && scheme == "Bearer " && header == "Bearer test-token"
    ensures WithAuth(token, header) == Pass
  {
    LowerBearer(scheme);
    assert header == scheme + token;
    AuthAccepts(token, scheme, header);
  }

  lemma AuthWrong(token: string, header: string)
    requires token == "test-token" && header == "Bearer wrong"
    ensures WithAuth(token, header) == Deny(ErrInvalidToken)
  {
    var scheme := "Bearer ";
    var rest := "wrong";
    assert header == scheme + rest;
    TrimUnchanged(header, GoWs);
    LowerBearer(scheme);
    TrimUnchanged(rest, GoWs);
    AuthSplit(token, scheme, rest, header);
  }

  // ------------------------------------------------------------------ routes

  datatype Route = HealthRoute | BulkRoute | NotifyRoute | ReadyRoute | TuitionRoute

  /** The mux patterns of Run; the most specific pattern wins. */
  function RouteOf(verb: string, path: string): (r: Option<Route>)
    ensures r == Some(HealthRoute) <==> verb == "GET" && path == "/healthz"
    ensures r.Some? && r != Some(HealthRoute) ==> verb == "POST" && StartsWith(path, "/notify/")
  {
    if verb == "GET" && path == "/healthz" then Some(HealthRoute)
    else if verb != "POST" then None
    else if path == "/notify/bulk" then Some(BulkRoute)
    else if StartsWith(path, "/notify/payment/tuition/") then Some(TuitionRoute)
    else if StartsWith(path, "/notify/ready/") then Some(ReadyRoute)
    else if StartsWith(path, "/notify/") then
      assert path[..|"/notify/"|] == "/notify/";
      Some(NotifyRoute)
    else None
  }

  /** One decoded request. */
  datatype Request = Request(path: string, authorization: string, text: Option<string>, bulk: Option<BulkRequest>)

  /** A routed request: the health check is open, every notify route is guarded. */
  function Serve(server: Server, route: Route, req: Request, n: Notifier): Reply {
    match route
    case HealthRoute => Reply(StatusOK, StatusBody("ok"), [])
    case _ =>
      match Guard(server, req.authorization)
      case Deny(msg) => Reply(StatusUnauthorized, ErrorBody(msg), [])
      case Pass =>
        match route
        case BulkRoute => BulkSpec(req.bulk, n)
        case NotifyRoute => HandleNotify(req.path, req.text, n)
        case ReadyRoute => HandleNotifyReady(req.path, n)
        case TuitionRoute => HandleNotifyTuition(req.path, n)
  }

  /** An unauthenticated request to a notify route is answered 401 and notifies nobody. */
  lemma DeniedNotifiesNobody(server: Server, route: Route, req: Request, n: Notifier)
    requires route != HealthRoute && Guard(server, req.authorization).Deny?
    ensures Serve(server, route, req, n) == Reply(StatusUnauthorized, ErrorBody(Guard(server, req.authorization).message), [])
  {
  }

  /** Whatever the route, the notifier is only called for ids taken from the request. */
  lemma CallsOnlyNamedUsers(server: Server, route: Route, req: Request, n: Notifier)
    ensures var r := Serve(server, route, req, n);
            forall k :: 0 <= k < |r.calls| ==>
              (r.calls[k].NotifyCall? && route == BulkRoute ==> req.bulk.Some? && r.calls[k].userID in req.bulk.value.userIds)
              && (route == NotifyRoute ==> r.calls[k] == NotifyCall(ParseUserID(req.path, "/notify/").value, req.text.value))
              && (route == HealthRoute ==> false)
  {
    var r := Serve(server, route, req, n);
    if route == BulkRoute && Guard(server, req.authorization) == Pass {
      BulkOutcome(req.bulk, n);
      forall k | 0 <= k < |r.calls|
        ensures req.bulk.Some? && r.calls[k].userID in req.bulk.value.userIds
      {
        var unique := Dedup(req.bulk.value.userIds);
        assert unique[k] in unique;
      }
    }
  }
}
