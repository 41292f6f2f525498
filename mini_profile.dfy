/**
 * The profile page's view of the user (src/pages/ProfilePage/lib/transformProfile.ts).
 */
module MiniProfile {
  import opened Common
  import opened MiniLib

  /** The three parts of the "course, faculty, group" line. */
  datatype Parts = Parts(course: string, faculty: string, group: string)

  /** The i-th piece, or the empty text past the last one (`parts[i] ?? ""`). */
  function PieceAt(parts: seq<string>, i: nat): string {
    if i < |parts| then parts[i] else ""
  }

  /**
   * splitCourseFacultyGroup: an absent or empty line has three empty parts;
   * otherwise the line is split at every comma, each piece is trimmed, and
   * the first three pieces are taken, missing ones empty.
   */
  function SplitCourseFacultyGroup(value: Option<string>): (r: Parts)
    ensures !Truthy(value) ==> r == Parts("", "", "")
  {
    if !Truthy(value) then Parts("", "", "")
    else
      var pieces := Split(value.value, ',');
      Parts(TrimJs(pieces[0]), TrimJs(PieceAt(pieces, 1)), TrimJs(PieceAt(pieces, 2)))
  }

  /** A line of three comma-free pieces gives each piece back, trimmed. */
  lemma SplitThree(a: string, b: string, c: string)
    requires ',' !in a && ',' !in b && ',' !in c
    ensures SplitCourseFacultyGroup(Some(a + "," + b + "," + c)) == Parts(TrimJs(a), TrimJs(b), TrimJs(c))
  {
    var s := a + "," + b + "," + c;
    assert s == a + [','] + (b + [','] + c);
    SplitAfter(a, ',', b + [','] + c);
    SplitAfter(b, ',', c);
    SplitNone(c);
  }

  /** Pieces after the third are dropped. */
  lemma SplitDropsRest(a: string, b: string, c: string, rest: string)
    requires ',' !in a && ',' !in b && ',' !in c
    ensures SplitCourseFacultyGroup(Some(a + "," + b + "," + c + "," + rest)) == Parts(TrimJs(a), TrimJs(b), TrimJs(c))
  {
    var s := a + "," + b + "," + c + "," + rest;
    assert s == a + [','] + (b + [','] + (c + [','] + rest));
    SplitAfter(a, ',', b + [','] + (c + [','] + rest));
    SplitAfter(b, ',', c + [','] + rest);
    SplitAfter(c, ',', rest);
  }

  /** A line without a comma is all course: the faculty and the group are empty. */
  lemma SplitOnlyCourse(a: string)
    requires a != "" && ',' !in a
    ensures SplitCourseFacultyGroup(Some(a)) == Parts(TrimJs(a), "", "")
  {
    SplitNone(a);
    assert TrimJs("") == "";
  }

  /** A text without the separator is one piece. */
  lemma {:induction false} SplitNone(a: string)
    requires ',' !in a
    ensures Split(a, ',') == [a]
    decreases |a|
  {
    if a != [] {
      assert a[0] != ',';
      assert ',' !in a[1..];
      SplitNone(a[1..]);
      assert [a[0]] + a[1..] == a;
    }
  }

  /** The fields of a user profile the page receives. */
  datatype UserProfile = UserProfile(fullName: string, role: Option<string>, courseFacultyGroup: Option<string>,
                                     placeOfStudy: Option<string>, studentCard: Option<string>,
                                     placeOfWork: Option<string>, kafedra: Option<string>,
                                     tabNumber: Option<string>, avatarUrl: Option<string>)

  /** ProfileViewModel. */
  datatype ProfileView = ProfileView(fullName: string, role: string, course: string, faculty: string, group: string,
                                     placeOfStudy: string, studentId: string, placeOfWork: string,
                                     position: string, tabNumber: string, avatarUrl: Option<string>)

  /**
   * transformProfileForPage: the name as it is, the role or the empty
   * text, the three parts of the course line, and for every other card
   * field its first present value, the place of work falling back to the
   * department and the position to the department and then the role,
   * each finally to the placeholder; an empty avatar URL becomes none.
   */
  function ProfileOf(p: UserProfile): (v: ProfileView)
    ensures v.placeOfStudy != "" && v.studentId != "" && v.placeOfWork != "" && v.position != "" && v.tabNumber != ""
    ensures v.avatarUrl.Some? <==> Truthy(p.avatarUrl)
    ensures Parts(v.course, v.faculty, v.group) == SplitCourseFacultyGroup(p.courseFacultyGroup)
  {
    var parts := SplitCourseFacultyGroup(p.courseFacultyGroup);
    ProfileView(p.fullName, OrElse(p.role, ""), parts.course, parts.faculty, parts.group,
                OrElse(p.placeOfStudy, NotSpecified), OrElse(p.studentCard, NotSpecified),
                OrElse(p.placeOfWork, OrElse(p.kafedra, NotSpecified)),
                OrElse(p.kafedra, OrElse(p.role, NotSpecified)),
                OrElse(p.tabNumber, NotSpecified),
                if Truthy(p.avatarUrl) then p.avatarUrl else None)
  }

  /**
   * A field shows the placeholder exactly when none of the values it may
   * be taken from is present.
   */
  lemma PlaceholderOnlyWhenMissing(p: UserProfile)
    ensures var v := ProfileOf(p);
            (v.placeOfStudy == NotSpecified <==> !Truthy(p.placeOfStudy) || p.placeOfStudy.value == NotSpecified)
            && (v.studentId == NotSpecified <==> !Truthy(p.studentCard) || p.studentCard.value == NotSpecified)
            && (!Truthy(p.placeOfWork) && !Truthy(p.kafedra) ==> v.placeOfWork == NotSpecified)
            && (!Truthy(p.kafedra) && !Truthy(p.role) ==> v.position == NotSpecified)
            && (Truthy(p.kafedra) ==> v.position == p.kafedra.value)
  {
  }
}
