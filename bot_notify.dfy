/*
 * The backend's client for the bot's notify API: recipient normalisation,
 * the configured base URL and bearer header, and the four request paths.
 * The HTTP call itself is not modelled: a request is described by a `Post`.
 */
module BotNotify {
  import opened Common

  /** The bot client's settings. */
  datatype Config = Config(baseUrl: string, token: string)

  datatype BulkPayload = BulkPayload(text: string, senderId: int, userIds: seq<int>)

  datatype Body = NoBody | TextBody(text: string) | BulkBody(bulk: BulkPayload)

  /** One HTTP POST to the bot. */
  datatype Post = Post(url: string, body: Body, headers: seq<(string, string)>)

  const ErrNoBaseUrl := "bot notify base URL is not configured"
  const ErrNoRecipients := "recipients list is empty"
  const BulkPath := "/notify/bulk"

  function UserPath(id: int): string { "/notify/" + IntToString(id) }
  function TuitionPath(id: int): string { "/notify/payment/tuition/" + IntToString(id) }
  function ReadyPath(id: int): string { "/notify/ready/" + IntToString(id) }

  // ------------------------------------------------------------ recipients

  predicate Positive(n: int) { n > 0 }

  /** The recipients after normalisation: positive ids, first occurrences only, in input order. */
  function Normalized(values: seq<int>): (r: seq<int>)
    ensures Distinct(r)
    ensures forall x :: x in r <==> x in values && x > 0
  {
    Dedup(Filter(values, Positive))
  }

  /** _normalize_ids: one pass with a set of the ids already kept. */
  method NormalizeIds(values: seq<int>) returns (unique: seq<int>)
    ensures unique == Normalized(values)
  {
    unique := [];
    var seen: set<int> := {};
    var k := 0;
    assert values[k..] == values;
    while k < |values|
      invariant 0 <= k <= |values|
      invariant unique + DedupFrom(Filter(values[k..], Positive), seen) == Normalized(values)
    {
      var num := values[k];
      NormalizeStep(values, k, seen);
      if num <= 0 || num in seen {
      } else {
        var rest := DedupFrom(Filter(values[k + 1..], Positive), seen + {num});
        assert (unique + [num]) + rest == unique + ([num] + rest);
        seen := seen + {num};
        unique := unique + [num];
      }
      k := k + 1;
    }
    assert values[k..] == [];
  }

  /** What one more input element does to the rest of the normalisation. */
  lemma NormalizeStep(values: seq<int>, k: nat, seen: set<int>)
    requires k < |values|
    ensures DedupFrom(Filter(values[k..], Positive), seen)
         == if values[k] <= 0 then DedupFrom(Filter(values[k + 1..], Positive), seen)
            else if values[k] in seen then DedupFrom(Filter(values[k + 1..], Positive), seen)
            else [values[k]] + DedupFrom(Filter(values[k + 1..], Positive), seen + {values[k]})
  {
    assert values[k..][1..] == values[k + 1..];
    var rest := Filter(values[k + 1..], Positive);
    if values[k] > 0 {
      assert Filter(values[k..], Positive) == [values[k]] + rest;
      assert ([values[k]] + rest)[1..] == rest;
    } else {
      assert Filter(values[k..], Positive) == rest;
    }
  }

  /** Normalising twice is normalising once. */
  lemma NormalizedIdempotent(values: seq<int>)
    ensures Normalized(Normalized(values)) == Normalized(values)
  {
    var r := Normalized(values);
    FilterAll(r, Positive);
    DedupIdempotent(Filter(values, Positive));
  }

  /** A list of distinct positive ids is already normal: the order is kept. */
  lemma NormalizedKeepsOrder(values: seq<int>)
    requires Distinct(values) && forall i :: 0 <= i < |values| ==> values[i] > 0
    ensures Normalized(values) == values
  {
    FilterAll(values, Positive);
    DedupDistinct(values, {});
  }

  // ---------------------------------------------------------- configuration

  /** _base_url: the trimmed setting without one trailing slash, or an error when it is blank. */
  function BaseUrl(configured: string): (r: Result<string>)
    ensures r.Err? <==> TrimPy(configured) == ""
    ensures r.Err? ==> r.error == ErrNoBaseUrl
    ensures r.Ok? && EndsWith(TrimPy(configured), "/") ==> r.value + "/" == TrimPy(configured)
    ensures r.Ok? && !EndsWith(TrimPy(configured), "/") ==> r.value == TrimPy(configured)
  {
    var base := TrimPy(configured);
    if base == "" then Err(ErrNoBaseUrl)
    else if EndsWith(base, "/") then
      assert base == base[..|base| - 1] + "/";
      Ok(base[..|base| - 1])
    else Ok(base)
  }

  /** _headers: none for a blank token, else the bearer authorization of the trimmed token. */
  function Headers(token: string): (r: seq<(string, string)>)
    ensures r == [] <==> TrimPy(token) == ""
    ensures r != [] ==> r == [("Authorization", "Bearer " + TrimPy(token))]
  {
    var t := TrimPy(token);
    if t == "" then [] else [("Authorization", "Bearer " + t)]
  }

  /** _post: the base URL is resolved first, so a blank setting fails every request. */
  function PostTo(config: Config, path: string, body: Body): (r: Result<Post>)
    ensures r.Err? <==> BaseUrl(config.baseUrl).Err?
    ensures r.Ok? ==> r.value.url == BaseUrl(config.baseUrl).value + path
                      && r.value.body == body && r.value.headers == Headers(config.token)
  {
    match BaseUrl(config.baseUrl)
    case Err(e) => Err(e)
    case Ok(base) => Ok(Post(base + path, body, Headers(config.token)))
  }

  // -------------------------------------------------------------- requests

  /** notify_user: the trimmed text to /notify/{id}. */
  function NotifyUser(config: Config, maxUserId: int, text: string): Result<Post> {
    PostTo(config, UserPath(maxUserId), TextBody(TrimPy(text)))
  }

  /** notify_bulk: refused before any request when no recipient survives normalisation; reports the number of recipients. */
  function NotifyBulk(config: Config, senderMaxId: int, userIds: seq<int>, text: string): (r: Result<(Post, nat)>)
  {
    var ids := Normalized(userIds);
    if ids == [] then Err(ErrNoRecipients)
    else
      match PostTo(config, BulkPath, BulkBody(BulkPayload(TrimPy(text), senderMaxId, ids)))
      case Err(e) => Err(e)
      case Ok(p) => Ok((p, |ids|))
  }

  function NotifyTuitionReminder(config: Config, userMaxId: int): Result<Post> {
    PostTo(config, TuitionPath(userMaxId), NoBody)
  }

  function NotifyDocumentReady(config: Config, userMaxId: int): Result<Post> {
    PostTo(config, ReadyPath(userMaxId), NoBody)
  }

  /**
   * A bulk notification is refused exactly when no positive id is given
   * (or the base URL is blank); otherwise it sends the trimmed text, the
   * sender and the normalised ids to /notify/bulk and reports their count.
   */
  lemma NotifyBulkOutcome(config: Config, senderMaxId: int, userIds: seq<int>, text: string)
    ensures var r := NotifyBulk(config, senderMaxId, userIds, text);
            && ((forall i :: 0 <= i < |userIds| ==> userIds[i] <= 0) ==> r == Err(ErrNoRecipients))
            && (r.Ok? <==> (exists i :: 0 <= i < |userIds| && userIds[i] > 0) && BaseUrl(config.baseUrl).Ok?)
            && (r.Ok? ==>
                  && r.value.0.url == BaseUrl(config.baseUrl).value + BulkPath
                  && r.value.0.body == BulkBody(BulkPayload(TrimPy(text), senderMaxId, Normalized(userIds)))
                  && r.value.1 == |Normalized(userIds)| > 0)
  {
    var ids := Normalized(userIds);
    if ids != [] {
      assert ids[0] in ids;
    }
    if exists i :: 0 <= i < |userIds| && userIds[i] > 0 {
      var i :| 0 <= i < |userIds| && userIds[i] > 0;
      assert userIds[i] in ids;
    }
  }

  /** Each single-user path names the id in decimal after its fixed prefix. */
  lemma PathsCarryId(id: int)
    ensures UserPath(id) == "/notify/" + IntToString(id)
    ensures ParseDecimal(UserPath(id)[|"/notify/"|..]) == Some(id)
    ensures ParseDecimal(TuitionPath(id)[|"/notify/payment/tuition/"|..]) == Some(id)
    ensures ParseDecimal(ReadyPath(id)[|"/notify/ready/"|..]) == Some(id)
  {
    ParseIntToString(id);
    assert UserPath(id)[|"/notify/"|..] == IntToString(id);
    assert TuitionPath(id)[|"/notify/payment/tuition/"|..] == IntToString(id);
    assert ReadyPath(id)[|"/notify/ready/"|..] == IntToString(id);
  }

  /** Different users are notified on different paths, for each of the three kinds of notice. */
  lemma PathsDistinct(a: int, b: int)
    requires a != b
    ensures UserPath(a) != UserPath(b) && TuitionPath(a) != TuitionPath(b) && ReadyPath(a) != ReadyPath(b)
  {
    PathsCarryId(a);
    PathsCarryId(b);
  }
}
