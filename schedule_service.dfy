/*
 * Lessons, their links to student groups, schedule versions and the
 * schedule changelog.  A batch of patches creates, updates or deletes
 * lessons one by one, logging each change; afterwards the schedule version
 * of the requested group is raised by one.
 */
module ScheduleService {
  import opened Common

  type LessonId = int
  type GroupId = int

  /** A JSON value of a patch's data: a single id or number, or a list of ids. */
  datatype Value = Scalar(n: int) | Ids(ids: seq<int>)

  /** A patch's data object, keyed by field name. */
  type PatchData = map<string, Value>

  datatype Patch = Patch(lessonId: Option<LessonId>, action: string, data: Option<PatchData>)

  datatype Lesson = Lesson(id: LessonId, teacherUserId: UserId, roomId: int, subjectId: int, pairNo: int)

  datatype LessonGroup = LessonGroup(lessonId: LessonId, groupId: GroupId)

  /** A row of schedule_metas; week starts are day numbers. */
  datatype Meta = Meta(groupId: GroupId, teacherUserId: Option<UserId>, weekStart: int, version: int)

  /** A changelog row: `changes` is the patch data an update applied. */
  datatype ChangeEntry = ChangeEntry(
    groupId: Option<GroupId>,
    teacherUserId: Option<UserId>,
    changeType: string,
    lessonId: LessonId,
    changes: Option<PatchData>,
    createdAt: int)

  datatype PatchResult = PatchResult(action: string, lessonId: LessonId, success: bool, error: Option<string>)

  datatype ScheduleDb = ScheduleDb(lessons: seq<Lesson>, links: seq<LessonGroup>, metas: seq<Meta>, changelog: seq<ChangeEntry>)

  /** The validated body of a new lesson. */
  datatype LessonCreate = LessonCreate(teacherUserId: UserId, roomId: int, subjectId: int, pairNo: int, groupIds: seq<GroupId>)

  const ErrLessonNotFound := "Lesson not found"
  const ErrInvalidLessonData := "invalid lesson data"
  const ErrGroupIdsNotList := "group_ids is not a list"

  /** The lesson columns a new lesson's data must give. */
  const LessonColumns: set<string> := {"teacher_user_id", "room_id", "subject_id", "pair_no"}

  /** The column attributes of a Lesson, which an update's setattr may write: the columns and the id. */
  const LessonAttributes: set<string> := LessonColumns + {"id"}

  // ------------------------------------------------------------ lesson rows

  function FindLesson(lessons: seq<Lesson>, id: LessonId): (r: Option<nat>)
    ensures r.Some? ==> r.value < |lessons| && lessons[r.value].id == id
    ensures r.Some? ==> forall i :: 0 <= i < r.value ==> lessons[i].id != id
    ensures r.None? <==> forall i :: 0 <= i < |lessons| ==> lessons[i].id != id
  {
    FindIndex(lessons, (l: Lesson) => l.id == id)
  }

  /** One link per group id, in order. */
  function LinksFor(id: LessonId, groups: seq<GroupId>): (r: seq<LessonGroup>)
    ensures |r| == |groups|
    ensures forall k :: 0 <= k < |groups| ==> r[k] == LessonGroup(id, groups[k])
  {
    if groups == [] then [] else LinksFor(id, groups[..|groups| - 1]) + [LessonGroup(id, groups[|groups| - 1])]
  }

  /** The links of every other lesson. */
  function LinksWithout(links: seq<LessonGroup>, id: LessonId): (r: seq<LessonGroup>)
    ensures forall k :: 0 <= k < |r| ==> r[k].lessonId != id
  {
    if links == [] then []
    else LinksWithout(links[..|links| - 1], id) + (if links[|links| - 1].lessonId == id then [] else [links[|links| - 1]])
  }

  /** The groups a lesson is linked to, in link order. */
  function GroupsOf(links: seq<LessonGroup>, id: LessonId): seq<GroupId> {
    if links == [] then []
    else GroupsOf(links[..|links| - 1], id) + (if links[|links| - 1].lessonId == id then [links[|links| - 1].groupId] else [])
  }

  lemma GroupsOfAppend(a: seq<LessonGroup>, b: seq<LessonGroup>, id: LessonId)
    ensures GroupsOf(a + b, id) == GroupsOf(a, id) + GroupsOf(b, id)
  {
    if b != [] {
      assert (a + b)[..|a + b| - 1] == a + b[..|b| - 1];
      GroupsOfAppend(a, b[..|b| - 1], id);
    } else {
      assert a + b == a;
    }
  }

  lemma {:induction false} GroupsOfLinksFor(id: LessonId, other: LessonId, groups: seq<GroupId>)
    ensures GroupsOf(LinksFor(id, groups), other) == (if id == other then groups else [])
  {
    if groups != [] {
      var n := |groups| - 1;
      assert LinksFor(id, groups)[..n] == LinksFor(id, groups[..n]);
      GroupsOfLinksFor(id, other, groups[..n]);
      assert groups == groups[..n] + [groups[n]];
    }
  }

  lemma {:induction false} GroupsOfWithout(links: seq<LessonGroup>, id: LessonId, other: LessonId)
    ensures GroupsOf(LinksWithout(links, id), other) == (if id == other then [] else GroupsOf(links, other))
  {
    if links != [] {
      var n := |links| - 1;
      GroupsOfWithout(links[..n], id, other);
      GroupsOfAppend(LinksWithout(links[..n], id), if links[n].lessonId == id then [] else [links[n]], other);
      assert links[n..] == [links[n]];
    }
  }

  /** create_lesson's validation of the data dictionary: four scalar columns, group_ids a list when given. */
  function ScalarAt(data: PatchData, key: string): Option<int> {
    if key in data && data[key].Scalar? then Some(data[key].n) else None
  }

  function ParseLesson(data: PatchData): (r: Option<LessonCreate>)
    ensures r.Some? <==> (forall k :: k in LessonColumns ==> ScalarAt(data, k).Some?)
                         && ("group_ids" in data ==> data["group_ids"].Ids?)
    ensures r.Some? ==> r.value.groupIds == (if "group_ids" in data then data["group_ids"].ids else [])
  {
    var t := ScalarAt(data, "teacher_user_id");
    var room := ScalarAt(data, "room_id");
    var s := ScalarAt(data, "subject_id");
    var p := ScalarAt(data, "pair_no");
    if t.None? || room.None? || s.None? || p.None? then None
    else if "group_ids" in data && !data["group_ids"].Ids? then None
    else Some(LessonCreate(t.value, room.value, s.value, p.value, if "group_ids" in data then data["group_ids"].ids else []))
  }

  /** create_lesson: one lesson row and one link per group id. */
  function CreateLessonSpec(db: ScheduleDb, data: LessonCreate, id: LessonId): ScheduleDb {
    db.(lessons := db.lessons + [Lesson(id, data.teacherUserId, data.roomId, data.subjectId, data.pairNo)],
        links := db.links + LinksFor(id, data.groupIds))
  }

  /** A lesson created under a fresh id is linked to exactly the given groups, in order; no other lesson's links change. */
  lemma CreateLessonLinks(db: ScheduleDb, data: LessonCreate, id: LessonId, other: LessonId)
    requires GroupsOf(db.links, id) == []
    ensures GroupsOf(CreateLessonSpec(db, data, id).links, other)
            == (if other == id then data.groupIds else GroupsOf(db.links, other))
  {
    GroupsOfAppend(db.links, LinksFor(id, data.groupIds), other);
    GroupsOfLinksFor(id, other, data.groupIds);
  }

  /** The value setattr leaves in one column. */
  function Column(data: PatchData, key: string, current: int): int {
    if key in data && data[key].Scalar? then data[key].n else current
  }

  /**
   * An update sets every column attribute its data names, the id included,
   * to the value given.
   */
  function ApplyUpdate(l: Lesson, data: PatchData): (r: Lesson)
    ensures "id" in data && data["id"].Scalar? ==> r.id == data["id"].n
    ensures "id" !in data ==> r.id == l.id
    ensures "teacher_user_id" in data && data["teacher_user_id"].Scalar? ==> r.teacherUserId == data["teacher_user_id"].n
    ensures "pair_no" in data && data["pair_no"].Scalar? ==> r.pairNo == data["pair_no"].n
  {
    Lesson(Column(data, "id", l.id), Column(data, "teacher_user_id", l.teacherUserId), Column(data, "room_id", l.roomId),
           Column(data, "subject_id", l.subjectId), Column(data, "pair_no", l.pairNo))
  }

  /** An update leaves every attribute its data does not name, and keys that name no column change nothing. */
  lemma UpdateTouchesOnlyNamedColumns(l: Lesson, data: PatchData)
    ensures var r := ApplyUpdate(l, data);
            && ("id" !in data ==> r.id == l.id)
            && ("teacher_user_id" !in data ==> r.teacherUserId == l.teacherUserId)
            && ("room_id" !in data ==> r.roomId == l.roomId)
            && ("subject_id" !in data ==> r.subjectId == l.subjectId)
            && ("pair_no" !in data ==> r.pairNo == l.pairNo)
            && (forall k :: k in data && k !in LessonAttributes ==> r == ApplyUpdate(l, data - {k}))
  {
  }

  // ---------------------------------------------------------------- patches

  /**
   * How the batch treats its group_id variable.  `AsWritten` follows the
   * code, where the loop over an update's group_ids reuses the name and
   * leaves the last linked group in it; `Intended` keeps the requested group.
   */
  datatype Scoping = AsWritten | Intended

  /** What one patch leaves: the tables, its result entry if it produced one, and the group variable afterwards. */
  datatype StepOut = StepOut(db: ScheduleDb, result: Option<PatchResult>, scope: Option<GroupId>)

  predicate NoData(data: Option<PatchData>) {
    data.None? || data.value == map[]
  }

  /** The changelog group of a created lesson: the batch's group, else the lesson's first group. */
  function CreateGroup(scope: Option<GroupId>, groups: seq<GroupId>): Option<GroupId> {
    if scope.Some? then scope else if groups != [] then Some(groups[0]) else None
  }

  /** The group variable after an update's link loop. */
  function ScopeAfterUpdate(scope: Option<GroupId>, data: PatchData, mode: Scoping): Option<GroupId> {
    if mode == AsWritten && "group_ids" in data && data["group_ids"].Ids? && data["group_ids"].ids != [] then
      Some(data["group_ids"].ids[|data["group_ids"].ids| - 1])
    else scope
  }

  function UpdateGroupIds(data: PatchData): seq<GroupId> {
    if "group_ids" in data && data["group_ids"].Ids? then data["group_ids"].ids else []
  }

  function CreateStep(db: ScheduleDb, data: PatchData, scope: Option<GroupId>, id: LessonId, now: int): Result<StepOut> {
    match ParseLesson(data)
    case None => Err(ErrInvalidLessonData)
    case Some(lc) =>
      var db1 := CreateLessonSpec(db, lc, id);
      var entry := ChangeEntry(CreateGroup(scope, lc.groupIds), Some(lc.teacherUserId), "create", id, None, now);
      Ok(StepOut(db1.(changelog := db1.changelog + [entry]), Some(PatchResult("create", id, true, None)), scope))
  }

  function UpdateStep(db: ScheduleDb, lid: LessonId, data: PatchData, scope: Option<GroupId>, now: int, mode: Scoping): Result<StepOut> {
    match FindLesson(db.lessons, lid)
    case None => Ok(StepOut(db, Some(PatchResult("update", lid, false, Some(ErrLessonNotFound))), scope))
    case Some(i) =>
      if "group_ids" in data && !data["group_ids"].Ids? then Err(ErrGroupIdsNotList)
      else
        var l := ApplyUpdate(db.lessons[i], data);
        var links := if "group_ids" in data then LinksWithout(db.links, l.id) + LinksFor(l.id, data["group_ids"].ids) else db.links;
        var scope' := ScopeAfterUpdate(scope, data, mode);
        var entry := ChangeEntry(CreateGroup(scope', UpdateGroupIds(data)), Some(l.teacherUserId), "update", l.id, Some(data), now);
        Ok(StepOut(db.(lessons := db.lessons[i := l], links := links, changelog := db.changelog + [entry]),
                   Some(PatchResult("update", lid, true, None)), scope'))
  }

  function DeleteStep(db: ScheduleDb, lid: LessonId, scope: Option<GroupId>, now: int): StepOut {
    match FindLesson(db.lessons, lid)
    case None => StepOut(db, Some(PatchResult("delete", lid, false, Some(ErrLessonNotFound))), scope)
    case Some(i) =>
      var l := db.lessons[i];
      var entry := ChangeEntry(scope, Some(l.teacherUserId), "delete", l.id, None, now);
      StepOut(db.(lessons := RemoveAt(db.lessons, i), links := LinksWithout(db.links, l.id), changelog := db.changelog + [entry]),
              Some(PatchResult("delete", lid, true, None)), scope)
  }

  /** One iteration of patch_schedule's loop; `id` is the id a created lesson gets. */
  function PatchStep(db: ScheduleDb, p: Patch, scope: Option<GroupId>, id: LessonId, now: int, mode: Scoping): Result<StepOut> {
    if p.action == "create" then
      if NoData(p.data) then Ok(StepOut(db, None, scope)) else CreateStep(db, p.data.value, scope, id, now)
    else if p.action == "update" then
      if p.lessonId.None? || NoData(p.data) then Ok(StepOut(db, None, scope))
      else UpdateStep(db, p.lessonId.value, p.data.value, scope, now, mode)
    else if p.action == "delete" then
      if p.lessonId.None? then Ok(StepOut(db, None, scope)) else Ok(DeleteStep(db, p.lessonId.value, scope, now))
    else Ok(StepOut(db, None, scope))
  }

  /** The loop state after a batch: tables, results so far and the group variable. */
  datatype Run = Run(db: ScheduleDb, results: seq<PatchResult>, scope: Option<GroupId>)

  function Opt<T>(x: Option<T>): seq<T> {
    if x.Some? then [x.value] else []
  }

  /** The loop of patch_schedule over a prefix of the patches; ids[k] is the id patch k would create. */
  function Fold(db: ScheduleDb, patches: seq<Patch>, g: Option<GroupId>, ids: seq<LessonId>, now: int, mode: Scoping): Result<Run>
    requires |patches| <= |ids|
  {
    if patches == [] then Ok(Run(db, [], g))
    else
      var n := |patches| - 1;
      match Fold(db, patches[..n], g, ids, now, mode)
      case Err(e) => Err(e)
      case Ok(run) =>
        match PatchStep(run.db, patches[n], run.scope, ids[n], now, mode)
        case Err(e) => Err(e)
        case Ok(out) => Ok(Run(out.db, run.results + Opt(out.result), out.scope))
  }

  // ---------------------------------------------------------------- version

  /** The first meta of a group with the highest version: the query ordered by version, descending. */
  function LatestMeta(metas: seq<Meta>, g: GroupId): (r: Option<nat>)
    ensures r.Some? ==> r.value < |metas| && metas[r.value].groupId == g
    ensures r.Some? ==> forall k :: 0 <= k < |metas| && metas[k].groupId == g ==> metas[k].version <= metas[r.value].version
    ensures r.None? <==> forall k :: 0 <= k < |metas| ==> metas[k].groupId != g
  {
    if metas == [] then None
    else
      var n := |metas| - 1;
      var rest := LatestMeta(metas[..n], g);
      if metas[n].groupId != g then rest
      else if rest.Some? && metas[rest.value].version >= metas[n].version then rest
      else Some(n)
  }

  /** The version bump: a new meta for the group, one version above its latest, copying teacher and week. */
  function Bump(db: ScheduleDb, g: Option<GroupId>): ScheduleDb {
    if g.None? then db
    else
      match LatestMeta(db.metas, g.value)
      case None => db
      case Some(i) =>
        var m := db.metas[i];
        db.(metas := db.metas + [Meta(g.value, m.teacherUserId, m.weekStart, m.version + 1)])
  }

  /** patch_schedule: the loop, then the bump for the group the variable names at the end. */
  function PatchSchedule(db: ScheduleDb, patches: seq<Patch>, g: Option<GroupId>, ids: seq<LessonId>, now: int, mode: Scoping): Result<(ScheduleDb, seq<PatchResult>)>
    requires |patches| <= |ids|
  {
    match Fold(db, patches, g, ids, now, mode)
    case Err(e) => Err(e)
    case Ok(run) => Ok((Bump(run.db, run.scope), run.results))
  }

  /** A bump adds exactly one meta, for the group, with a version above every version the group had. */
  lemma BumpOutcome(db: ScheduleDb, g: Option<GroupId>)
    ensures var db' := Bump(db, g);
            && db'.lessons == db.lessons && db'.links == db.links && db'.changelog == db.changelog
            && (g.None? || LatestMeta(db.metas, g.value).None? ==> db'.metas == db.metas)
            && (g.Some? && (exists k :: 0 <= k < |db.metas| && db.metas[k].groupId == g.value) ==>
                  && |db'.metas| == |db.metas| + 1
                  && db'.metas[..|db.metas|] == db.metas
                  && db'.metas[|db.metas|].groupId == g.value
                  && db'.metas[|db.metas|].version == db.metas[LatestMeta(db.metas, g.value).value].version + 1
                  && db'.metas[|db.metas|].teacherUserId == db.metas[LatestMeta(db.metas, g.value).value].teacherUserId
                  && db'.metas[|db.metas|].weekStart == db.metas[LatestMeta(db.metas, g.value).value].weekStart
                  && (forall k :: 0 <= k < |db.metas| && db.metas[k].groupId == g.value ==>
                        db'.metas[|db.metas|].version > db.metas[k].version))
  {
    if g.Some? && LatestMeta(db.metas, g.value).Some? {
      var i := LatestMeta(db.metas, g.value).value;
      assert (db.metas + [Meta(g.value, db.metas[i].teacherUserId, db.metas[i].weekStart, db.metas[i].version + 1)])[..|db.metas|] == db.metas;
    }
  }

  // ----------------------------------------------------------- the lemmas

  /** A patch that is skipped changes nothing and adds no result. */
  lemma SkippedPatchLeavesNoTrace(db: ScheduleDb, p: Patch, scope: Option<GroupId>, id: LessonId, now: int, mode: Scoping)
    requires || (p.action == "create" && NoData(p.data))
             || (p.action == "update" && (p.lessonId.None? || NoData(p.data)))
             || (p.action == "delete" && p.lessonId.None?)
             || p.action !in {"create", "update", "delete"}
    ensures PatchStep(db, p, scope, id, now, mode) == Ok(StepOut(db, None, scope))
  {
  }

  /** One changelog entry appended exactly when the step reports a success, earlier entries kept; a failure is always "Lesson not found". */
  predicate LogsSuccess(db: ScheduleDb, out: StepOut, action: string) {
    && (out.result.Some? && out.result.value.success ==>
          |out.db.changelog| == |db.changelog| + 1 && out.db.changelog[..|db.changelog|] == db.changelog)
    && (out.result.None? || !out.result.value.success ==> out.db == db)
    && (out.result.Some? ==> out.result.value.action == action)
    && (out.result.Some? && !out.result.value.success ==> out.result.value.error == Some(ErrLessonNotFound))
  }

  lemma AppendKeepsPrefix<T>(s: seq<T>, x: T)
    ensures (s + [x])[..|s|] == s
  {
  }

  lemma CreateStepLogs(db: ScheduleDb, data: PatchData, scope: Option<GroupId>, id: LessonId, now: int)
    requires CreateStep(db, data, scope, id, now).Ok?
    ensures LogsSuccess(db, CreateStep(db, data, scope, id, now).value, "create")
  {
    var lc := ParseLesson(data).value;
    var db1 := CreateLessonSpec(db, lc, id);
    AppendKeepsPrefix(db.changelog, ChangeEntry(CreateGroup(scope, lc.groupIds), Some(lc.teacherUserId), "create", id, None, now));
  }

  /**
   * A create patch with valid data adds the lesson and logs "create" under
   * the batch's group, else the lesson's first group, else none.
   */
  lemma CreateStepOutcome(db: ScheduleDb, data: PatchData, scope: Option<GroupId>, id: LessonId, now: int)
    requires ParseLesson(data).Some?
    ensures var lc := ParseLesson(data).value;
            var out := CreateStep(db, data, scope, id, now).value;
            var c := out.db.changelog;
            && CreateStep(db, data, scope, id, now).Ok?
            && out.result == Some(PatchResult("create", id, true, None))
            && out.db.lessons == db.lessons + [Lesson(id, lc.teacherUserId, lc.roomId, lc.subjectId, lc.pairNo)]
            && |c| == |db.changelog| + 1
            && c[|c| - 1].changeType == "create" && c[|c| - 1].teacherUserId == Some(lc.teacherUserId)
            && (scope.Some? ==> c[|c| - 1].groupId == scope)
            && (scope.None? && lc.groupIds != [] ==> c[|c| - 1].groupId == Some(lc.groupIds[0]))
            && (scope.None? && lc.groupIds == [] ==> c[|c| - 1].groupId.None?)
  {
  }

  lemma UpdateStepLogs(db: ScheduleDb, lid: LessonId, data: PatchData, scope: Option<GroupId>, now: int, mode: Scoping)
    requires UpdateStep(db, lid, data, scope, now, mode).Ok?
    ensures LogsSuccess(db, UpdateStep(db, lid, data, scope, now, mode).value, "update")
  {
    if FindLesson(db.lessons, lid).Some? {
      var out := UpdateStep(db, lid, data, scope, now, mode).value;
      var c := out.db.changelog;
      AppendKeepsPrefix(db.changelog, c[|c| - 1]);
    }
  }

  lemma DeleteStepLogs(db: ScheduleDb, lid: LessonId, scope: Option<GroupId>, now: int)
    ensures LogsSuccess(db, DeleteStep(db, lid, scope, now), "delete")
  {
    if FindLesson(db.lessons, lid).Some? {
      var l := db.lessons[FindLesson(db.lessons, lid).value];
      AppendKeepsPrefix(db.changelog, ChangeEntry(scope, Some(l.teacherUserId), "delete", l.id, None, now));
    }
  }

  /** Every step appends one changelog entry exactly when it reports a success, and never rewrites earlier entries. */
  lemma StepLogsSuccess(db: ScheduleDb, p: Patch, scope: Option<GroupId>, id: LessonId, now: int, mode: Scoping)
    requires PatchStep(db, p, scope, id, now, mode).Ok?
    ensures LogsSuccess(db, PatchStep(db, p, scope, id, now, mode).value, p.action)
  {
    if p.action == "create" {
      if !NoData(p.data) {
        CreateStepLogs(db, p.data.value, scope, id, now);
      }
    } else if p.action == "update" {
      if p.lessonId.Some? && !NoData(p.data) {
        UpdateStepLogs(db, p.lessonId.value, p.data.value, scope, now, mode);
      }
    } else if p.action == "delete" {
      if p.lessonId.Some? {
        DeleteStepLogs(db, p.lessonId.value, scope, now);
      }
    }
  }

  function Successes(results: seq<PatchResult>): nat {
    if results == [] then 0
    else Successes(results[..|results| - 1]) + (if results[|results| - 1].success then 1 else 0)
  }

  /** Over a whole batch the changelog grows by one entry per successful result, keeping the earlier entries; there are never more results than patches. */
  lemma {:induction false} FoldLogsSuccesses(db: ScheduleDb, patches: seq<Patch>, g: Option<GroupId>, ids: seq<LessonId>, now: int, mode: Scoping)
    requires |patches| <= |ids|
    requires Fold(db, patches, g, ids, now, mode).Ok?
    ensures var run := Fold(db, patches, g, ids, now, mode).value;
            && |run.results| <= |patches|
            && |run.db.changelog| == |db.changelog| + Successes(run.results)
            && run.db.changelog[..|db.changelog|] == db.changelog
  {
    if patches != [] {
      var n := |patches| - 1;
      FoldLogsSuccesses(db, patches[..n], g, ids, now, mode);
      var run := Fold(db, patches[..n], g, ids, now, mode).value;
      StepLogsSuccess(run.db, patches[n], run.scope, ids[n], now, mode);
      var out := PatchStep(run.db, patches[n], run.scope, ids[n], now, mode).value;
      var results := run.results + Opt(out.result);
      assert Fold(db, patches, g, ids, now, mode) == Ok(Run(out.db, results, out.scope));
      if out.result.Some? {
        assert results[..|results| - 1] == run.results;
        if out.result.value.success {
          assert out.db.changelog[..|db.changelog|] == run.db.changelog[..|run.db.changelog|][..|db.changelog|];
        }
      } else {
        assert results == run.results;
      }
    }
  }

  /**
   * An update with group_ids leaves the lesson, under the id it has after
   * the update, linked to exactly those groups; the other ids keep theirs.
   */
  lemma UpdateReplacesLinks(db: ScheduleDb, lid: LessonId, data: PatchData, scope: Option<GroupId>, now: int, mode: Scoping, other: LessonId)
    requires FindLesson(db.lessons, lid).Some? && "group_ids" in data && data["group_ids"].Ids?
    ensures var out := UpdateStep(db, lid, data, scope, now, mode).value;
            var nid := ApplyUpdate(db.lessons[FindLesson(db.lessons, lid).value], data).id;
            && ("id" !in data ==> nid == lid)
            && GroupsOf(out.db.links, other) == (if other == nid then data["group_ids"].ids else GroupsOf(db.links, other))
  {
    var nid := ApplyUpdate(db.lessons[FindLesson(db.lessons, lid).value], data).id;
    GroupsOfAppend(LinksWithout(db.links, nid), LinksFor(nid, data["group_ids"].ids), other);
    GroupsOfWithout(db.links, nid, other);
    GroupsOfLinksFor(nid, other, data["group_ids"].ids);
  }

  /** A delete logs the lesson's teacher under the batch's group and removes the lesson's first row and all its links. */
  lemma DeleteOutcome(db: ScheduleDb, lid: LessonId, scope: Option<GroupId>, now: int)
    requires FindLesson(db.lessons, lid).Some?
    ensures var i := FindLesson(db.lessons, lid).value;
            var out := DeleteStep(db, lid, scope, now);
            && out.db.changelog == db.changelog + [ChangeEntry(scope, Some(db.lessons[i].teacherUserId), "delete", lid, None, now)]
            && |out.db.lessons| == |db.lessons| - 1
            && multiset(out.db.lessons) + multiset{db.lessons[i]} == multiset(db.lessons)
            && GroupsOf(out.db.links, lid) == []
  {
    GroupsOfWithout(db.links, lid, lid);
  }

  /** With the intended scoping the group variable is the requested group after every prefix of the batch. */
  lemma {:induction false} IntendedKeepsScope(db: ScheduleDb, patches: seq<Patch>, g: Option<GroupId>, ids: seq<LessonId>, now: int)
    requires |patches| <= |ids|
    requires Fold(db, patches, g, ids, now, Intended).Ok?
    ensures Fold(db, patches, g, ids, now, Intended).value.scope == g
  {
    if patches != [] {
      IntendedKeepsScope(db, patches[..|patches| - 1], g, ids, now);
    }
  }

  /** With the intended scoping a batch without a group never bumps a version, and an update logs its first linked group. */
  lemma IntendedNoGroupNoBump(db: ScheduleDb, patches: seq<Patch>, ids: seq<LessonId>, now: int)
    requires |patches| <= |ids|
    requires PatchSchedule(db, patches, None, ids, now, Intended).Ok?
    ensures PatchSchedule(db, patches, None, ids, now, Intended).value.0.metas == db.metas
  {
    IntendedKeepsScope(db, patches, None, ids, now);
    FoldKeepsMetas(db, patches, None, ids, now, Intended);
  }

  lemma {:induction false} FoldKeepsMetas(db: ScheduleDb, patches: seq<Patch>, g: Option<GroupId>, ids: seq<LessonId>, now: int, mode: Scoping)
    requires |patches| <= |ids|
    requires Fold(db, patches, g, ids, now, mode).Ok?
    ensures Fold(db, patches, g, ids, now, mode).value.db.metas == db.metas
  {
    if patches != [] {
      FoldKeepsMetas(db, patches[..|patches| - 1], g, ids, now, mode);
    }
  }

  /** With the intended scoping an update's changelog group is the batch's group, else its first linked group. */
  lemma IntendedUpdateGroup(db: ScheduleDb, lid: LessonId, data: PatchData, scope: Option<GroupId>, now: int)
    requires FindLesson(db.lessons, lid).Some? && UpdateStep(db, lid, data, scope, now, Intended).Ok?
    ensures var c := UpdateStep(db, lid, data, scope, now, Intended).value.db.changelog;
            c[|c| - 1].groupId == (if scope.Some? then scope else if UpdateGroupIds(data) != [] then Some(UpdateGroupIds(data)[0]) else None)
  {
  }

  /**
   * As written, an update that links groups leaves the last of them in the
   * batch's group variable and logs under it, whatever group was requested;
   * an update without groups keeps the variable.
   */
  lemma AsWrittenUpdateGroup(db: ScheduleDb, lid: LessonId, data: PatchData, scope: Option<GroupId>, now: int)
    requires FindLesson(db.lessons, lid).Some? && UpdateStep(db, lid, data, scope, now, AsWritten).Ok?
    ensures var out := UpdateStep(db, lid, data, scope, now, AsWritten).value;
            var c := out.db.changelog;
            var gs := UpdateGroupIds(data);
            && (gs != [] ==> out.scope == Some(gs[|gs| - 1]) && c[|c| - 1].groupId == Some(gs[|gs| - 1]))
            && (gs == [] ==> out.scope == scope && c[|c| - 1].groupId == scope)
  {
  }

  /** The concrete batch that shows the reused group_id variable. */
  const WitnessDb := ScheduleDb([Lesson(1, 10, 20, 30, 1)], [], [Meta(7, None, 0, 1)], [])
  const WitnessPatches := [Patch(Some(1), "update", Some(map["group_ids" := Ids([5, 7])]))]

  /**
   * As written, an update linking groups 5 and 7 in a batch without a group
   * logs group 7 instead of 5, and bumps group 7's version although no group
   * was requested.
   */
  lemma AsWrittenRebindsGroup()
    ensures var r := PatchSchedule(WitnessDb, WitnessPatches, None, [100], 0, AsWritten);
            && r.Ok?
            && |r.value.0.changelog| == 1
            && r.value.0.changelog[0].groupId == Some(7)
            && |r.value.0.metas| == 2
  {
    assert FindLesson(WitnessDb.lessons, 1) == Some(0);
    assert LatestMeta(WitnessDb.metas, 7) == Some(0);
    assert WitnessPatches[..0] == [];
  }

  /** With the intended scoping the same batch logs group 5 and leaves the versions alone. */
  lemma IntendedWitness()
    ensures var r := PatchSchedule(WitnessDb, WitnessPatches, None, [100], 0, Intended);
            && r.Ok?
            && |r.value.0.changelog| == 1
            && r.value.0.changelog[0].groupId == Some(5)
            && r.value.0.metas == WitnessDb.metas
  {
    assert FindLesson(WitnessDb.lessons, 1) == Some(0);
    assert WitnessPatches[..0] == [];
  }

  // -------------------------------------------------------------- changelog

  predicate MatchesFilter(e: ChangeEntry, g: Option<GroupId>, t: Option<UserId>) {
    (g.None? || e.groupId == g) && (t.None? || e.teacherUserId == t)
  }

  function NegCreatedAt(e: ChangeEntry): int { -e.createdAt }

  /** get_schedule_changelog: the entries matching the given filters, newest first. */
  function Changelog(db: ScheduleDb, g: Option<GroupId>, t: Option<UserId>): (r: seq<ChangeEntry>)
    ensures forall k :: 0 <= k < |r| ==> MatchesFilter(r[k], g, t)
    ensures forall j, k :: 0 <= j < k < |r| ==> r[j].createdAt >= r[k].createdAt
    ensures multiset(r) == multiset(Filter(db.changelog, (e: ChangeEntry) => MatchesFilter(e, g, t)))
  {
    var matching := Filter(db.changelog, (e: ChangeEntry) => MatchesFilter(e, g, t));
    var r := SortBy(matching, NegCreatedAt);
    forall k | 0 <= k < |r| ensures MatchesFilter(r[k], g, t) {
      assert r[k] in multiset(r);
      assert r[k] in matching;
    }
    r
  }

  // ------------------------------------------------------------ the service

  /** The lessons, lesson_groups, schedule_metas and schedule_changelogs tables, updated in place. */
  class ScheduleStore {
    var lessons: seq<Lesson>
    var links: seq<LessonGroup>
    var metas: seq<Meta>
    var changelog: seq<ChangeEntry>

    function State(): ScheduleDb
      reads this
    {
      ScheduleDb(lessons, links, metas, changelog)
    }

    constructor(db: ScheduleDb)
      ensures State() == db
    {
      lessons := db.lessons;
      links := db.links;
      metas := db.metas;
      changelog := db.changelog;
    }

    method AddLinks(id: LessonId, groups: seq<GroupId>)
      modifies this
      ensures State() == old(State()).(links := old(links) + LinksFor(id, groups))
    {
      for k := 0 to |groups|
        invariant State() == old(State()).(links := old(links) + LinksFor(id, groups[..k]))
      {
        assert groups[..k + 1][..k] == groups[..k];
        links := links + [LessonGroup(id, groups[k])];
      }
      assert groups[..|groups|] == groups;
    }

    /** create_lesson: one row, then a link per group id. */
    method CreateLesson(data: LessonCreate, id: LessonId)
      modifies this
      ensures State() == CreateLessonSpec(old(State()), data, id)
    {
      lessons := lessons + [Lesson(id, data.teacherUserId, data.roomId, data.subjectId, data.pairNo)];
      AddLinks(id, data.groupIds);
    }

    method CreateFromPatch(data: PatchData, scope: Option<GroupId>, id: LessonId, now: int) returns (r: Result<Option<PatchResult>>)
      modifies this
      ensures CreateStep(old(State()), data, scope, id, now).Err? ==> r.Err?
      ensures CreateStep(old(State()), data, scope, id, now).Ok? ==>
                && r == Ok(CreateStep(old(State()), data, scope, id, now).value.result)
                && State() == CreateStep(old(State()), data, scope, id, now).value.db
    {
      var lc := ParseLesson(data);
      if lc.None? {
        return Err(ErrInvalidLessonData);
      }
      CreateLesson(lc.value, id);
      changelog := changelog + [ChangeEntry(CreateGroup(scope, lc.value.groupIds), Some(lc.value.teacherUserId), "create", id, None, now)];
      return Ok(Some(PatchResult("create", id, true, None)));
    }

    /**
     * An update patch as written: the loop over group_ids leaves the last
     * linked group in the batch's group variable, which is returned as
     * `scope'`.
     */
    method UpdateFromPatch(lid: LessonId, data: PatchData, scope: Option<GroupId>, now: int)
      returns (r: Result<Option<PatchResult>>, scope': Option<GroupId>)
      modifies this
      ensures UpdateStep(old(State()), lid, data, scope, now, AsWritten).Err? ==> r.Err?
      ensures UpdateStep(old(State()), lid, data, scope, now, AsWritten).Ok? ==>
                && r == Ok(UpdateStep(old(State()), lid, data, scope, now, AsWritten).value.result)
                && State() == UpdateStep(old(State()), lid, data, scope, now, AsWritten).value.db
                && scope' == UpdateStep(old(State()), lid, data, scope, now, AsWritten).value.scope
    {
      scope' := scope;
      var i := FindLesson(lessons, lid);
      if i.None? {
        return Ok(Some(PatchResult("update", lid, false, Some(ErrLessonNotFound)))), scope';
      }
      if "group_ids" in data && !data["group_ids"].Ids? {
        return Err(ErrGroupIdsNotList), scope';
      }
      var l := ApplyUpdate(lessons[i.value], data);
      lessons := lessons[i.value := l];
      if "group_ids" in data {
        var groups := data["group_ids"].ids;
        links := LinksWithout(links, l.id);
        AddLinks(l.id, groups);
        if groups != [] {
          scope' := Some(groups[|groups| - 1]);
        }
      }
      changelog := changelog + [ChangeEntry(CreateGroup(scope', UpdateGroupIds(data)), Some(l.teacherUserId), "update", l.id, Some(data), now)];
      return Ok(Some(PatchResult("update", lid, true, None))), scope';
    }

    method DeleteFromPatch(lid: LessonId, scope: Option<GroupId>, now: int) returns (r: Option<PatchResult>)
      modifies this
      ensures r == DeleteStep(old(State()), lid, scope, now).result
      ensures State() == DeleteStep(old(State()), lid, scope, now).db
    {
      var i := FindLesson(lessons, lid);
      if i.None? {
        return Some(PatchResult("delete", lid, false, Some(ErrLessonNotFound)));
      }
      var l := lessons[i.value];
      changelog := changelog + [ChangeEntry(scope, Some(l.teacherUserId), "delete", l.id, None, now)];
      lessons := RemoveAt(lessons, i.value);
      links := LinksWithout(links, l.id);
      return Some(PatchResult("delete", lid, true, None));
    }

    /** One iteration of the patch loop as written; `scope'` is the group variable afterwards. */
    method ApplyPatch(p: Patch, scope: Option<GroupId>, id: LessonId, now: int)
      returns (r: Result<Option<PatchResult>>, scope': Option<GroupId>)
      modifies this
      ensures PatchStep(old(State()), p, scope, id, now, AsWritten).Err? ==> r.Err?
      ensures PatchStep(old(State()), p, scope, id, now, AsWritten).Ok? ==>
                && r == Ok(PatchStep(old(State()), p, scope, id, now, AsWritten).value.result)
                && State() == PatchStep(old(State()), p, scope, id, now, AsWritten).value.db
                && scope' == PatchStep(old(State()), p, scope, id, now, AsWritten).value.scope
    {
      scope' := scope;
      if p.action == "create" {
        if NoData(p.data) {
          return Ok(None), scope';
        }
        r := CreateFromPatch(p.data.value, scope, id, now);
      } else if p.action == "update" {
        if p.lessonId.None? || NoData(p.data) {
          return Ok(None), scope';
        }
        r, scope' := UpdateFromPatch(p.lessonId.value, p.data.value, scope, now);
      } else if p.action == "delete" {
        if p.lessonId.None? {
          return Ok(None), scope';
        }
        var res := DeleteFromPatch(p.lessonId.value, scope, now);
        r := Ok(res);
      } else {
        r := Ok(None);
      }
    }

    /** The version bump at the end of patch_schedule. */
    method BumpVersion(g: Option<GroupId>)
      modifies this
      ensures State() == Bump(old(State()), g)
    {
      if g.Some? {
        var latest := LatestMeta(metas, g.value);
        if latest.Some? {
          var m := metas[latest.value];
          metas := metas + [Meta(g.value, m.teacherUserId, m.weekStart, m.version + 1)];
        }
      }
    }

    /**
     * patch_schedule as written: the group variable `scope` starts as the
     * requested group, the update steps may rebind it, and the bump uses
     * what it names at the end.  The state after a failure is not specified.
     */
    method PatchBatch(patches: seq<Patch>, g: Option<GroupId>, ids: seq<LessonId>, now: int) returns (r: Result<seq<PatchResult>>)
      requires |patches| <= |ids|
      modifies this
      ensures PatchSchedule(old(State()), patches, g, ids, now, AsWritten).Err? ==> r.Err?
      ensures PatchSchedule(old(State()), patches, g, ids, now, AsWritten).Ok? ==>
                && r == Ok(PatchSchedule(old(State()), patches, g, ids, now, AsWritten).value.1)
                && State() == PatchSchedule(old(State()), patches, g, ids, now, AsWritten).value.0
    {
      ghost var start := State();
      var results: seq<PatchResult> := [];
      var scope := g;
      for k := 0 to |patches|
        invariant Fold(start, patches[..k], g, ids, now, AsWritten) == Ok(Run(State(), results, scope))
      {
        FoldExtend(start, patches, k, g, ids, now, AsWritten, Run(State(), results, scope));
        var step, scope' := ApplyPatch(patches[k], scope, ids[k], now);
        if step.Err? {
          FoldErrStays(start, patches, k + 1, g, ids, now, AsWritten);
          return Err(step.error);
        }
        results := results + Opt(step.value);
        scope := scope';
      }
      assert patches[..|patches|] == patches;
      BumpVersion(scope);
      return Ok(results);
    }
  }

  /** One more patch of the batch: the fold of the longer prefix is the step applied to the shorter one's run. */
  lemma FoldExtend(db: ScheduleDb, patches: seq<Patch>, k: nat, g: Option<GroupId>, ids: seq<LessonId>, now: int,
                   mode: Scoping, run: Run)
    requires k < |patches| <= |ids|
    requires Fold(db, patches[..k], g, ids, now, mode) == Ok(run)
    ensures var step := PatchStep(run.db, patches[k], run.scope, ids[k], now, mode);
            && (step.Err? ==> Fold(db, patches[..k + 1], g, ids, now, mode).Err?)
            && (step.Ok? ==> Fold(db, patches[..k + 1], g, ids, now, mode)
                             == Ok(Run(step.value.db, run.results + Opt(step.value.result), step.value.scope)))
  {
    assert patches[..k + 1][..k] == patches[..k];
  }

  /** Once a prefix of the batch fails, the whole batch fails. */
  lemma {:induction false} FoldErrStays(db: ScheduleDb, patches: seq<Patch>, k: nat, g: Option<GroupId>, ids: seq<LessonId>, now: int,
                                        mode: Scoping)
    requires k <= |patches| <= |ids|
    requires Fold(db, patches[..k], g, ids, now, mode).Err?
    ensures PatchSchedule(db, patches, g, ids, now, mode).Err?
    decreases |patches| - k
  {
    if k == |patches| {
      assert patches[..k] == patches;
    } else {
      assert patches[..k + 1][..k] == patches[..k];
      FoldErrStays(db, patches, k + 1, g, ids, now, mode);
    }
  }
}
