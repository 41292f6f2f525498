/*
 * Broadcasts from staff to a student group or to a whole faculty, and the
 * three feeds that read them: a student's own, a group's, and an author's.
 */
module BroadcastService {
  import opened Common
  import opened UserService

  /** A broadcast aimed at a group, a faculty or both. */
  datatype Broadcast = Broadcast(
    id: int,
    authorId: UserId,
    groupId: Option<int>,
    facultyId: Option<int>,
    title: string,
    message: string,
    createdAt: int)

  datatype BroadcastCreate = BroadcastCreate(title: string, message: string, groupId: Option<int>, facultyId: Option<int>)

  const ErrNotAuthor := "Только преподаватели и администраторы могут создавать рассылки"
  const ErrNoTarget := "Необходимо указать group_id или faculty_id"

  /** ORDER BY created_at DESC, as an ascending key. */
  function NewestKey(b: Broadcast): int { -b.createdAt }

  function Newest(bs: seq<Broadcast>): (r: seq<Broadcast>)
    ensures SortedBy(r, NewestKey) && multiset(r) == multiset(bs)
  {
    SortBy(bs, NewestKey)
  }

  /** Newest first: a later broadcast never follows an earlier one. */
  lemma NewestFirst(bs: seq<Broadcast>, i: nat, j: nat)
    requires i < j < |Newest(bs)|
    ensures Newest(bs)[i].createdAt >= Newest(bs)[j].createdAt
  {
    assert NewestKey(Newest(bs)[i]) <= NewestKey(Newest(bs)[j]);
  }

  // ------------------------------------------------------------------ feeds

  /** The broadcasts aimed at a group or at its faculty, in table order. */
  function AimedAt(bs: seq<Broadcast>, g: GroupRow): (r: seq<Broadcast>)
    ensures forall b :: b in r <==> b in bs && (b.groupId == Some(g.id) || b.facultyId == Some(g.facultyId))
  {
    Filter(bs, (b: Broadcast) => b.groupId == Some(g.id) || b.facultyId == Some(g.facultyId))
  }

  /** The group whose broadcasts a user receives: only a student with a student record and an existing group has one. */
  function StudentGroup(db: Accounts, u: UserId): Option<GroupRow> {
    match FindUser(db.users, u)
    case None => None
    case Some(i) =>
      if db.users[i].role != StudentRole then None
      else
        match StudentOf(db, u)
        case None => None
        case Some(s) => GroupById(db, s.groupId)
  }

  /** get_broadcasts_for_user. */
  function ForUser(db: Accounts, bs: seq<Broadcast>, u: UserId): seq<Broadcast> {
    match StudentGroup(db, u)
    case None => []
    case Some(g) => Newest(AimedAt(bs, g))
  }

  /** The group `groupId` exists with faculty `facultyId`: the faculty subquery of the group feed. */
  predicate InFacultyOf(db: Accounts, groupId: int, facultyId: int) {
    FirstWhere(db.groups, (g: GroupRow) => g.id == groupId && g.facultyId == facultyId).Some?
  }

  function AimedAtGroupId(db: Accounts, bs: seq<Broadcast>, groupId: int): (r: seq<Broadcast>)
    ensures forall b :: b in r <==> b in bs && (b.groupId == Some(groupId) || (b.facultyId.Some? && InFacultyOf(db, groupId, b.facultyId.value)))
  {
    Filter(bs, (b: Broadcast) => b.groupId == Some(groupId) || (b.facultyId.Some? && InFacultyOf(db, groupId, b.facultyId.value)))
  }

  /** get_broadcasts_for_group. */
  function ForGroup(db: Accounts, bs: seq<Broadcast>, groupId: int): seq<Broadcast> {
    Newest(AimedAtGroupId(db, bs, groupId))
  }

  function ByAuthorRows(bs: seq<Broadcast>, author: UserId): (r: seq<Broadcast>)
    ensures forall b :: b in r <==> b in bs && b.authorId == author
  {
    Filter(bs, (b: Broadcast) => b.authorId == author)
  }

  /** get_teacher_broadcasts. */
  function ByAuthor(bs: seq<Broadcast>, author: UserId): seq<Broadcast> {
    Newest(ByAuthorRows(bs, author))
  }

  /** Only a student with a student record and an existing group can receive anything. */
  lemma StudentGroupShape(db: Accounts, u: UserId)
    ensures StudentGroup(db, u).Some? <==>
              && FindUser(db.users, u).Some? && db.users[FindUser(db.users, u).value].role == StudentRole
              && StudentOf(db, u).Some? && GroupById(db, StudentOf(db, u).value.groupId).Some?
    ensures StudentGroup(db, u).Some? ==> StudentGroup(db, u) == GroupById(db, StudentOf(db, u).value.groupId)
  {
  }

  /**
   * A user's feed is empty without a group; with one it holds exactly the
   * broadcasts aimed at that group or its faculty, as often as stored,
   * newest first.
   */
  lemma ForUserContents(db: Accounts, bs: seq<Broadcast>, u: UserId)
    ensures StudentGroup(db, u).None? ==> ForUser(db, bs, u) == []
    ensures StudentGroup(db, u).Some? ==>
              var r := ForUser(db, bs, u);
              var g := StudentGroup(db, u).value;
              && SortedBy(r, NewestKey)
              && multiset(r) == multiset(AimedAt(bs, g))
              && forall b :: b in r <==> b in bs && (b.groupId == Some(g.id) || b.facultyId == Some(g.facultyId))
  {
    if StudentGroup(db, u).Some? {
      var r := ForUser(db, bs, u);
      var g := StudentGroup(db, u).value;
      forall b ensures b in r <==> b in AimedAt(bs, g) {
        assert b in r <==> b in multiset(r);
      }
    }
  }

  /** The group feed holds exactly the broadcasts aimed at the group or at the faculty of a group with that id, newest first. */
  lemma ForGroupContents(db: Accounts, bs: seq<Broadcast>, groupId: int)
    ensures var r := ForGroup(db, bs, groupId);
            && SortedBy(r, NewestKey)
            && multiset(r) == multiset(AimedAtGroupId(db, bs, groupId))
            && forall b :: b in r <==> b in bs && (b.groupId == Some(groupId) || (b.facultyId.Some? && InFacultyOf(db, groupId, b.facultyId.value)))
  {
    var r := ForGroup(db, bs, groupId);
    forall b ensures b in r <==> b in AimedAtGroupId(db, bs, groupId) {
      assert b in r <==> b in multiset(r);
    }
  }

  /** An author's feed holds exactly the broadcasts they wrote, newest first. */
  lemma ByAuthorContents(bs: seq<Broadcast>, author: UserId)
    ensures var r := ByAuthor(bs, author);
            && SortedBy(r, NewestKey)
            && multiset(r) == multiset(ByAuthorRows(bs, author))
            && forall b :: b in r <==> b in bs && b.authorId == author
  {
    var r := ByAuthor(bs, author);
    forall b ensures b in r <==> b in ByAuthorRows(bs, author) {
      assert b in r <==> b in multiset(r);
    }
  }

  predicate GroupIdsUnique(db: Accounts) {
    forall i, j :: 0 <= i < j < |db.groups| ==> db.groups[i].id != db.groups[j].id
  }

  /**
   * With group ids unique, a student's own feed is the feed of their group:
   * the faculty subquery of the group feed picks out the group's faculty.
   */
  lemma StudentFeedIsGroupFeed(db: Accounts, bs: seq<Broadcast>, u: UserId)
    requires GroupIdsUnique(db)
    requires StudentGroup(db, u).Some?
    ensures ForUser(db, bs, u) == ForGroup(db, bs, StudentGroup(db, u).value.id)
  {
    var g := StudentGroup(db, u).value;
    var gid := g.id;
    assert g == GroupById(db, StudentOf(db, u).value.groupId).value;
    var k :| 0 <= k < |db.groups| && db.groups[k] == g && g.id == gid;
    forall f ensures InFacultyOf(db, gid, f) <==> f == g.facultyId {
      if InFacultyOf(db, gid, f) {
        var x := FirstWhere(db.groups, (h: GroupRow) => h.id == gid && h.facultyId == f).value;
        var m :| 0 <= m < |db.groups| && db.groups[m] == x && x.id == gid && x.facultyId == f;
        assert m == k;
      } else {
        assert !(db.groups[k].id == gid && db.groups[k].facultyId == f);
      }
    }
    FilterCongruent(bs,
      (b: Broadcast) => b.groupId == Some(g.id) || b.facultyId == Some(g.facultyId),
      (b: Broadcast) => b.groupId == Some(gid) || (b.facultyId.Some? && InFacultyOf(db, gid, b.facultyId.value)));
  }

  // --------------------------------------------------------------- creation

  /** Only staff and administrators may broadcast. */
  predicate MayBroadcast(db: Accounts, author: UserId) {
    FindUser(db.users, author).Some? && db.users[FindUser(db.users, author).value].role in {StaffRole, AdminRole}
  }

  /** create_broadcast: the new row, or why it is refused. */
  function CreateSpec(db: Accounts, data: BroadcastCreate, author: UserId, newId: int, now: int): (r: Result<Broadcast>)
    ensures r.Ok? <==> MayBroadcast(db, author) && (data.groupId.Some? || data.facultyId.Some?)
    ensures !MayBroadcast(db, author) ==> r == Err(ErrNotAuthor)
    ensures r.Ok? ==> r.value.authorId == author && r.value.groupId == data.groupId && r.value.facultyId == data.facultyId
                      && r.value.title == data.title && r.value.message == data.message && r.value.createdAt == now
  {
    if !MayBroadcast(db, author) then Err(ErrNotAuthor)
    else if data.groupId.None? && data.facultyId.None? then Err(ErrNoTarget)
    else Ok(Broadcast(newId, author, data.groupId, data.facultyId, data.title, data.message, now))
  }

  /** A new broadcast reaches the feed of every group it names and of every group of the faculty it names. */
  lemma CreatedReachesTargets(db: Accounts, bs: seq<Broadcast>, data: BroadcastCreate, author: UserId, newId: int, now: int, g: GroupRow)
    requires CreateSpec(db, data, author, newId, now).Ok?
    requires data.groupId == Some(g.id) || data.facultyId == Some(g.facultyId)
    ensures CreateSpec(db, data, author, newId, now).value in Newest(AimedAt(bs + [CreateSpec(db, data, author, newId, now).value], g))
  {
    var b := CreateSpec(db, data, author, newId, now).value;
    var r := Newest(AimedAt(bs + [b], g));
    assert b in AimedAt(bs + [b], g);
    assert b in multiset(r);
  }

  /** The broadcasts table. */
  class BroadcastStore {
    var broadcasts: seq<Broadcast>

    constructor(bs: seq<Broadcast>)
      ensures broadcasts == bs
    {
      broadcasts := bs;
    }

    /** create_broadcast: appends the new row when the author and target are acceptable, else changes nothing. */
    method Create(db: Accounts, data: BroadcastCreate, author: UserId, newId: int, now: int) returns (r: Result<Broadcast>)
      modifies this
      ensures r == CreateSpec(db, data, author, newId, now)
      ensures broadcasts == if r.Ok? then old(broadcasts) + [r.value] else old(broadcasts)
    {
      var i := FindUser(db.users, author);
      if i.None? || db.users[i.value].role !in {StaffRole, AdminRole} {
        return Err(ErrNotAuthor);
      }
      if data.groupId.None? && data.facultyId.None? {
        return Err(ErrNoTarget);
      }
      var b := Broadcast(newId, author, data.groupId, data.facultyId, data.title, data.message, now);
      broadcasts := broadcasts + [b];
      return Ok(b);
    }
  }
}
