/*
 * The HTTP layer over broadcasts: the three feeds and the detail view, each
 * rendered with the author's name and the names of the group and faculty it
 * targets, and creation, which stores the broadcast and hands it to the bot
 * as one bulk notification to the max ids of the students it reaches.
 */
module BroadcastEndpoints {
  import opened Common
  import opened UserService
  import opened BroadcastService
  import BotNotify

  /** An HTTP answer: a body with its success code, or an error code with a detail text. */
  datatype Http<T> = Respond(code: int, body: T) | Raise(code: int, detail: string)

  /** BroadcastRead: the row with the names the endpoints add to it when the related rows exist. */
  datatype BroadcastView = BroadcastView(
    broadcast: Broadcast,
    authorFullName: Option<string>,
    groupName: Option<string>,
    facultyName: Option<string>)

  const ErrListForbidden := "Недостаточно прав для просмотра списка рассылок"
  const ErrBroadcastNotFound := "Рассылка не найдена"
  /**
   * What reading `name` off a faculty row raises: the row has a title and no
   * name.  No handler catches it, so the server answers 500.
   */
  const ErrFacultyHasNoName := "'Faculty' object has no attribute 'name'"
  const ServerError := 500
  /** The signature of a broadcast without an author row. */
  const Administration := "Администрация"

  // -------------------------------------------------------------- rendering

  function AuthorName(db: Accounts, b: Broadcast): (r: Option<string>)
    ensures r.None? <==> forall i :: 0 <= i < |db.users| ==> db.users[i].id != b.authorId
    ensures r.Some? ==> exists i :: 0 <= i < |db.users| && db.users[i].id == b.authorId && db.users[i].fullName == r.value
  {
    match FindUser(db.users, b.authorId)
    case None => None
    case Some(i) => Some(db.users[i].fullName)
  }

  function GroupName(db: Accounts, b: Broadcast): (r: Option<string>)
    ensures r.None? <==> b.groupId.None? || forall g :: g in db.groups ==> g.id != b.groupId.value
    ensures r.Some? ==> exists g :: g in db.groups && Some(g.id) == b.groupId && g.name == r.value
  {
    if b.groupId.None? then None
    else
      match GroupById(db, b.groupId.value)
      case None => None
      case Some(g) => Some(g.name)
  }

  function FacultyTitle(db: Accounts, b: Broadcast): (r: Option<string>)
    ensures r.None? <==> b.facultyId.None? || forall f :: f in db.faculties ==> f.id != b.facultyId.value
    ensures r.Some? ==> exists f :: f in db.faculties && Some(f.id) == b.facultyId && f.title == r.value
  {
    if b.facultyId.None? then None
    else
      match FacultyById(db, b.facultyId.value)
      case None => None
      case Some(f) => Some(f.title)
  }

  /**
   * The broadcast as the endpoints mean to show it: the author's full name,
   * the group's name and the faculty's title, each present exactly when the
   * related row exists.
   */
  function Render(db: Accounts, b: Broadcast): (r: BroadcastView)
    ensures r.broadcast == b
    ensures r.authorFullName.Some? <==> exists i :: 0 <= i < |db.users| && db.users[i].id == b.authorId
    ensures r.groupName.Some? <==> b.groupId.Some? && exists g :: g in db.groups && g.id == b.groupId.value
    ensures r.facultyName.Some? <==> b.facultyId.Some? && exists f :: f in db.faculties && f.id == b.facultyId.value
    ensures r.facultyName.Some? ==> exists f :: f in db.faculties && Some(f.id) == b.facultyId && f.title == r.facultyName.value
  {
    BroadcastView(b, AuthorName(db, b), GroupName(db, b), FacultyTitle(db, b))
  }

  /** The broadcast targets a faculty row that exists. */
  predicate TargetsKnownFaculty(db: Accounts, b: Broadcast) {
    b.facultyId.Some? && exists f :: f in db.faculties && f.id == b.facultyId.value
  }

  /**
   * The rendering as written: it reads `name` off the faculty row, which has
   * only a title, so it raises whenever the targeted faculty exists.
   */
  function RenderAsWritten(db: Accounts, b: Broadcast): (r: Result<BroadcastView>)
    ensures r.Err? <==> TargetsKnownFaculty(db, b)
    ensures r.Err? ==> r.error == ErrFacultyHasNoName
    ensures r.Ok? ==> r.value == Render(db, b) && r.value.facultyName.None?
  {
    if FacultyTitle(db, b).Some? then Err(ErrFacultyHasNoName)
    else Ok(BroadcastView(b, AuthorName(db, b), GroupName(db, b), None))
  }

  /** A broadcast to an existing faculty cannot be shown as written, while the intended rendering names the faculty by its title. */
  lemma FacultyBroadcastFailsAsWritten(db: Accounts, b: Broadcast, f: FacultyRow)
    requires f in db.faculties && b.facultyId == Some(f.id)
    ensures RenderAsWritten(db, b) == Err(ErrFacultyHasNoName)
    ensures Render(db, b).facultyName.Some?
  {
  }

  /** The smallest case: one faculty and a broadcast to it, with no author, group or student rows. */
  lemma FacultyBroadcastWitness()
    ensures var db := Accounts([], [], [], [], [], [FacultyRow(7, 1, "ФИТ")], [], []);
            var b := Broadcast(1, 2, None, Some(7), "Собрание", "В 10:00", 0);
            && RenderAsWritten(db, b).Err?
            && Render(db, b) == BroadcastView(b, None, None, Some("ФИТ"))
  {
    var db := Accounts([], [], [], [], [], [FacultyRow(7, 1, "ФИТ")], [], []);
    var b := Broadcast(1, 2, None, Some(7), "Собрание", "В 10:00", 0);
    assert FacultyById(db, 7) == Some(FacultyRow(7, 1, "ФИТ"));
  }

  /**
   * The loop every list endpoint runs, as written: it fails at the first
   * broadcast to an existing faculty; otherwise one rendered view per
   * broadcast, in order, none with a faculty name.
   */
  method RenderList(db: Accounts, bs: seq<Broadcast>) returns (r: Result<seq<BroadcastView>>)
    ensures r.Err? <==> exists i :: 0 <= i < |bs| && TargetsKnownFaculty(db, bs[i])
    ensures r.Err? ==> r.error == ErrFacultyHasNoName
    ensures r.Ok? ==> |r.value| == |bs| && forall i :: 0 <= i < |bs| ==> r.value[i] == Render(db, bs[i])
  {
    var views: seq<BroadcastView> := [];
    var k := 0;
    while k < |bs|
      invariant 0 <= k <= |bs| && |views| == k
      invariant forall i :: 0 <= i < k ==> !TargetsKnownFaculty(db, bs[i]) && views[i] == Render(db, bs[i])
    {
      var view := RenderAsWritten(db, bs[k]);
      if view.Err? {
        return Err(view.error);
      }
      views := views + [view.value];
      k := k + 1;
    }
    return Ok(views);
  }

  /** A list endpoint's answer: 500 when a broadcast cannot be rendered, else 200 with the views. */
  function ListAnswer(rendered: Result<seq<BroadcastView>>): Http<seq<BroadcastView>> {
    match rendered
    case Err(e) => Raise(ServerError, e)
    case Ok(views) => Respond(200, views)
  }

  // ------------------------------------------------------------------ reads

  /** The broadcasts GET /broadcasts lists: a group's when one is named, else a student's own, else none. */
  function Feed(db: Accounts, bs: seq<Broadcast>, groupId: Option<int>, current: Account): seq<Broadcast> {
    if groupId.Some? then ForGroup(db, bs, groupId.value)
    else if current.role == StudentRole then ForUser(db, bs, current.id)
    else []
  }

  /** Without a group filter staff and administrators see nothing here; a student sees their own feed. */
  lemma FeedWithoutGroup(db: Accounts, bs: seq<Broadcast>, current: Account)
    ensures current.role != StudentRole ==> Feed(db, bs, None, current) == []
    ensures current.role == StudentRole ==>
              forall b :: b in Feed(db, bs, None, current) ==>
                b in bs && StudentGroup(db, current.id).Some?
                && (b.groupId == Some(StudentGroup(db, current.id).value.id) || b.facultyId == Some(StudentGroup(db, current.id).value.facultyId))
  {
    if current.role == StudentRole {
      ForUserContents(db, bs, current.id);
    }
  }

  /**
   * get_broadcasts as written: a 500 when the feed holds a broadcast to an
   * existing faculty, else every broadcast of the feed rendered, newest first.
   */
  method GetBroadcasts(db: Accounts, bs: seq<Broadcast>, groupId: Option<int>, current: Account) returns (r: Http<seq<BroadcastView>>)
    ensures var feed := Feed(db, bs, groupId, current);
            && ((exists i :: 0 <= i < |feed| && TargetsKnownFaculty(db, feed[i])) ==> r == Raise(ServerError, ErrFacultyHasNoName))
            && ((forall i :: 0 <= i < |feed| ==> !TargetsKnownFaculty(db, feed[i])) ==>
                  r.Respond? && r.code == 200 && |r.body| == |feed|
                  && forall i :: 0 <= i < |feed| ==> r.body[i] == Render(db, feed[i]))
  {
    var feed: seq<Broadcast>;
    if groupId.Some? {
      feed := ForGroup(db, bs, groupId.value);
    } else if current.role == StudentRole {
      feed := ForUser(db, bs, current.id);
    } else {
      feed := [];
    }
    assert feed == Feed(db, bs, groupId, current);
    var views := RenderList(db, feed);
    r := ListAnswer(views);
  }

  /**
   * get_my_broadcasts as written: 403 for students; else a 500 when one of
   * the caller's broadcasts targets an existing faculty, otherwise the
   * caller's own broadcasts rendered, newest first.
   */
  method GetMyBroadcasts(db: Accounts, bs: seq<Broadcast>, current: Account) returns (r: Http<seq<BroadcastView>>)
    ensures current.role == StudentRole ==> r == Raise(403, ErrListForbidden)
    ensures var mine := ByAuthor(bs, current.id);
            current.role != StudentRole ==>
              && ((exists i :: 0 <= i < |mine| && TargetsKnownFaculty(db, mine[i])) ==> r == Raise(ServerError, ErrFacultyHasNoName))
              && ((forall i :: 0 <= i < |mine| ==> !TargetsKnownFaculty(db, mine[i])) ==>
                    r.Respond? && r.code == 200 && |r.body| == |mine|
                    && forall i :: 0 <= i < |mine| ==> r.body[i] == Render(db, mine[i]))
  {
    if current.role !in {StaffRole, AdminRole} {
      return Raise(403, ErrListForbidden);
    }
    var views := RenderList(db, ByAuthor(bs, current.id));
    r := ListAnswer(views);
  }

  /** get_broadcast_by_id: the first row with that id. */
  function BroadcastById(bs: seq<Broadcast>, id: int): Option<Broadcast> {
    FirstWhere(bs, (b: Broadcast) => b.id == id)
  }

  /**
   * get_broadcast_details as written: 404 when no broadcast has the id, a
   * 500 when the first one with it targets an existing faculty, else that
   * broadcast rendered; any caller may read it.
   */
  function GetBroadcastDetails(db: Accounts, bs: seq<Broadcast>, id: int): (r: Http<BroadcastView>)
    ensures (forall i :: 0 <= i < |bs| ==> bs[i].id != id) ==> r == Raise(404, ErrBroadcastNotFound)
    ensures (exists i :: 0 <= i < |bs| && bs[i].id == id) ==>
              var b := BroadcastById(bs, id).value;
              && b in bs && b.id == id
              && (TargetsKnownFaculty(db, b) ==> r == Raise(ServerError, ErrFacultyHasNoName))
              && (!TargetsKnownFaculty(db, b) ==> r == Respond(200, Render(db, b)))
  {
    match BroadcastById(bs, id)
    case None => Raise(404, ErrBroadcastNotFound)
    case Some(b) =>
      match RenderAsWritten(db, b)
      case Err(e) => Raise(ServerError, e)
      case Ok(view) => Respond(200, view)
  }

  // ------------------------------------------------------------- recipients

  /** The students a broadcast reaches: its group's, else its faculty's, else every student. */
  function TargetStudents(db: Accounts, groupId: Option<int>, facultyId: Option<int>): (r: seq<StudentRow>)
    ensures forall s :: s in r <==>
              && s in db.students
              && (groupId.Some? ==> s.groupId == groupId.value)
              && (groupId.None? && facultyId.Some? ==> s.facultyId == facultyId.value)
  {
    if groupId.Some? then Filter(db.students, (s: StudentRow) => s.groupId == groupId.value)
    else if facultyId.Some? then Filter(db.students, (s: StudentRow) => s.facultyId == facultyId.value)
    else db.students
  }

  /** The max_id column of a student's user row, when the row exists. */
  function StudentMaxId(db: Accounts, s: StudentRow): Option<int> {
    match FindUser(db.users, s.userId)
    case None => None
    case Some(i) => db.users[i].maxId
  }

  /** The joined rows' max ids, dropping the NULL and the falsy zero ones, in row order. */
  function JoinedMaxIds(db: Accounts, students: seq<StudentRow>): (r: seq<int>)
    ensures forall x :: x in r <==> x != 0 && exists s :: s in students && StudentMaxId(db, s) == Some(x)
  {
    if students == [] then []
    else
      var m := StudentMaxId(db, students[0]);
      var rest := JoinedMaxIds(db, students[1..]);
      assert forall s :: s in students <==> s == students[0] || s in students[1..];
      (if m.Some? && m.value != 0 then [m.value] else []) + rest
  }

  /** The recipients of a broadcast: each max id of a reached student once, in row order. */
  function Recipients(db: Accounts, groupId: Option<int>, facultyId: Option<int>): (r: seq<int>)
    ensures Distinct(r)
    ensures forall x :: x in r <==> x != 0 && exists s :: s in TargetStudents(db, groupId, facultyId) && StudentMaxId(db, s) == Some(x)
  {
    Dedup(JoinedMaxIds(db, TargetStudents(db, groupId, facultyId)))
  }

  /** _collect_recipient_max_ids: the joined ids, then one pass keeping first occurrences. */
  method CollectRecipients(db: Accounts, groupId: Option<int>, facultyId: Option<int>) returns (unique: seq<int>)
    ensures unique == Recipients(db, groupId, facultyId)
  {
    unique := FirstOccurrences(JoinedMaxIds(db, TargetStudents(db, groupId, facultyId)));
  }

  /** The collecting loop: a set of the ids already kept, and the kept ids in order. */
  method FirstOccurrences(ids: seq<int>) returns (unique: seq<int>)
    ensures unique == Dedup(ids)
  {
    unique := [];
    var seen: set<int> := {};
    var k := 0;
    while k < |ids|
      invariant 0 <= k <= |ids|
      invariant unique + DedupFrom(ids[k..], seen) == Dedup(ids)
    {
      var value := ids[k];
      DedupStep(ids, k, seen);
      if value !in seen {
        seen := seen + {value};
        unique := unique + [value];
      }
      k := k + 1;
    }
  }

  // ------------------------------------------------------------------- push

  /** The sender: the author's max id when it is positive, else the configured default. */
  function SenderId(maxId: Option<int>, defaultSender: int): (r: int)
    ensures maxId.Some? && maxId.value > 0 ==> r == maxId.value
    ensures !(maxId.Some? && maxId.value > 0) ==> r == defaultSender
  {
    var s := if maxId.Some? && maxId.value != 0 then maxId.value else defaultSender;
    if s <= 0 then defaultSender else s
  }

  const Megaphone := "\U{1F4E2}"

  function Header(authorName: Option<string>): string {
    Megaphone + " Сообщение от " + (if authorName.Some? then authorName.value else Administration)
  }

  /** The lines of the text: the header, the subject when there is one, a blank line and the body when there is one. */
  function FormatParts(h: string, t: string, body: string): seq<string> {
    [h] + (if t != "" then ["Тема: " + t] else []) + (if body != "" then ["", body] else [])
  }

  /** _format_broadcast_text: the header line, the subject when there is one, then a blank line and the body when there is one. */
  function FormatText(authorName: Option<string>, title: string, message: string): string {
    TrimPy(Join(FormatParts(Header(authorName), TrimPy(title), TrimPy(message)), "\n"))
  }

  lemma JoinTwo(a: string, b: string)
    ensures Join([a, b], "\n") == a + "\n" + b
  {
    JoinCons(a, [b], "\n");
  }

  lemma JoinThree(a: string, b: string, c: string)
    ensures Join([a, b, c], "\n") == a + "\n" + (b + "\n" + c)
  {
    assert [a, b, c] == [a] + [b, c];
    JoinCons(a, [b, c], "\n");
    JoinTwo(b, c);
  }

  lemma JoinFour(a: string, b: string, c: string, d: string)
    ensures Join([a, b, c, d], "\n") == a + "\n" + (b + "\n" + (c + "\n" + d))
  {
    assert [a, b, c, d] == [a] + [b, c, d];
    JoinCons(a, [b, c, d], "\n");
    JoinThree(b, c, d);
  }

  /** The text before its final trim: the lines joined by newlines. */
  function Laid(h: string, t: string, body: string): string {
    h + (if t != "" then "\nТема: " + t else "") + (if body != "" then "\n\n" + body else "")
  }

  /** The joined parts before the final trim. */
  lemma JoinedParts(h: string, t: string, body: string)
    ensures Join(FormatParts(h, t, body), "\n") == Laid(h, t, body)
  {
    var subject := "Тема: " + t;
    if t != "" && body != "" {
      assert FormatParts(h, t, body) == [h, subject, "", body];
      JoinFour(h, subject, "", body);
      assert h + "\n" + (subject + "\n" + ("" + "\n" + body)) == h + ("\n" + subject) + ("\n\n" + body);
    } else if t != "" {
      assert FormatParts(h, t, body) == [h, subject];
      JoinTwo(h, subject);
      assert h + "\n" + subject == h + ("\n" + subject) + "";
    } else if body != "" {
      assert FormatParts(h, t, body) == [h, "", body];
      JoinThree(h, "", body);
      assert h + "\n" + ("" + "\n" + body) == h + "" + ("\n\n" + body);
    } else {
      assert FormatParts(h, t, body) == [h];
    }
  }

  /** A laid-out text with a subject or a body neither starts nor ends with whitespace. */
  lemma LaidEdges(h: string, t: string, body: string)
    requires |h| > 0 && !PySpace(h[0])
    requires t != "" ==> !PySpace(t[|t| - 1])
    requires body != "" ==> !PySpace(body[|body| - 1])
    requires t != "" || body != ""
    ensures TrimPy(Laid(h, t, body)) == Laid(h, t, body)
  {
    var s := Laid(h, t, body);
    var last := if body != "" then body else t;
    assert s[|s| - 1] == last[|last| - 1];
    assert s[0] == h[0];
    TrimUnchanged(s, PyWs);
  }

  /** The text as laid out when a subject or a body is present: nothing is trimmed from its ends. */
  lemma FormatShape(authorName: Option<string>, title: string, message: string)
    requires TrimPy(title) != "" || TrimPy(message) != ""
    ensures FormatText(authorName, title, message) == Laid(Header(authorName), TrimPy(title), TrimPy(message))
  {
    JoinedParts(Header(authorName), TrimPy(title), TrimPy(message));
    TrimWithSpec(title, PyWs);
    TrimWithSpec(message, PyWs);
    var h := Header(authorName);
    assert h[0] == '\U{1F4E2}';
    LaidEdges(h, TrimPy(title), TrimPy(message));
  }

  /** The Bot API request a new broadcast leads to, or None when it reaches no max id or the bot client refuses. */
  function PushFor(config: BotNotify.Config, defaultSender: int, db: Accounts, b: Broadcast, author: Account): Option<BotNotify.Post> {
    var recipients := Recipients(db, b.groupId, b.facultyId);
    if recipients == [] then None
    else
      match BotNotify.NotifyBulk(config, SenderId(author.maxId, defaultSender), recipients,
                                 FormatText(AuthorName(db, b), b.title, b.message))
      case Err(_) => None
      case Ok(sent) => Some(sent.0)
  }

  /**
   * A broadcast is pushed exactly when some reached student has a positive
   * max id and the bot URL is configured; the push carries the formatted
   * text, the author's max id (or the default) and exactly the positive
   * recipient ids.
   */
  lemma PushOutcome(config: BotNotify.Config, defaultSender: int, db: Accounts, b: Broadcast, author: Account)
    ensures var r := PushFor(config, defaultSender, db, b, author);
            && (r.Some? <==> (exists x :: x in Recipients(db, b.groupId, b.facultyId) && x > 0) && BotNotify.BaseUrl(config.baseUrl).Ok?)
            && (r.Some? ==>
                  && r.value.url == BotNotify.BaseUrl(config.baseUrl).value + BotNotify.BulkPath
                  && r.value.body.BulkBody?
                  && r.value.body.bulk.text == FormatText(AuthorName(db, b), b.title, b.message)
                  && r.value.body.bulk.senderId == SenderId(author.maxId, defaultSender)
                  && forall x :: x in r.value.body.bulk.userIds <==>
                       x > 0 && exists s :: s in TargetStudents(db, b.groupId, b.facultyId) && StudentMaxId(db, s) == Some(x))
  {
    var recipients := Recipients(db, b.groupId, b.facultyId);
    var text := FormatText(AuthorName(db, b), b.title, b.message);
    var sender := SenderId(author.maxId, defaultSender);
    BotNotify.NotifyBulkOutcome(config, sender, recipients, text);
    TrimIdempotent(Join(FormatParts(Header(AuthorName(db, b)), TrimPy(b.title), TrimPy(b.message)), "\n"), PyWs);
    if exists x :: x in recipients && x > 0 {
      var x :| x in recipients && x > 0;
      var i :| 0 <= i < |recipients| && recipients[i] == x;
    }
    if exists i :: 0 <= i < |recipients| && recipients[i] > 0 {
      var i :| 0 <= i < |recipients| && recipients[i] > 0;
      assert recipients[i] in recipients;
    }
  }

  /** _push_broadcast_to_bot: collects the recipients and builds the bulk request. */
  method PushBroadcast(config: BotNotify.Config, defaultSender: int, db: Accounts, b: Broadcast, author: Account)
    returns (push: Option<BotNotify.Post>)
    ensures push == PushFor(config, defaultSender, db, b, author)
  {
    var recipients := CollectRecipients(db, b.groupId, b.facultyId);
    if recipients == [] {
      return None;
    }
    var sender := SenderId(author.maxId, defaultSender);
    var text := FormatText(AuthorName(db, b), b.title, b.message);
    var sent := BotNotify.NotifyBulk(config, sender, recipients, text);
    if sent.Err? {
      return None;
    }
    return Some(sent.value.0);
  }

  // --------------------------------------------------------------- creation

  /**
   * create_broadcast_endpoint as written: a refused broadcast is a 400 with
   * the service's message and changes nothing; an accepted one is stored
   * and pushed to the bot, and only then rendered: a broadcast to an
   * existing faculty is answered with 500, although it has been stored and
   * pushed, and any other with 201 and its rendering.  The bot's answer
   * never reaches the caller.
   */
  method CreateBroadcastEndpoint(store: BroadcastStore, db: Accounts, data: BroadcastCreate, current: Account,
                                 newId: int, now: int, config: BotNotify.Config, defaultSender: int)
    returns (r: Http<BroadcastView>, push: Option<BotNotify.Post>)
    modifies store
    ensures var c := CreateSpec(db, data, current.id, newId, now);
            && store.broadcasts == (if c.Ok? then old(store.broadcasts) + [c.value] else old(store.broadcasts))
            && (c.Err? ==> r == Raise(400, c.error) && push.None?)
            && (c.Ok? ==> push == PushFor(config, defaultSender, db, c.value, current))
            && (c.Ok? && TargetsKnownFaculty(db, c.value) ==> r == Raise(ServerError, ErrFacultyHasNoName))
            && (c.Ok? && !TargetsKnownFaculty(db, c.value) ==> r == Respond(201, Render(db, c.value)))
  {
    var created := store.Create(db, data, current.id, newId, now);
    if created.Err? {
      return Raise(400, created.error), None;
    }
    var b := created.value;
    push := PushBroadcast(config, defaultSender, db, b, current);
    var view := RenderAsWritten(db, b);
    if view.Err? {
      return Raise(ServerError, view.error), push;
    }
    r := Respond(201, view.value);
  }
}
