/**
 * The role the mini-app's navigation is built for (src/lib/getUserRole.ts):
 * the role the backend reports, folded into the three roles of the UI.
 */
module MiniRole {
  import opened Common

  /** The UI roles. */
  datatype UiRole = Student | Teacher | Admin

  /**
   * useUserRole: with no role reported, the default (the hook's callers get
   * Teacher unless they name another); otherwise the lower-cased role is
   * an admin when it contains "admin", a teacher when it contains
   * "teacher" or "staff", and a student in every other case.
   */
  function UserRole(role: Option<string>, defaultRole: UiRole): (r: UiRole)
    ensures !Truthy(role) ==> r == defaultRole
    ensures Truthy(role) ==> (r == Admin <==> Contains(Lower(role.value), "admin"))
    ensures Truthy(role) ==> (r == Teacher <==> (!Contains(Lower(role.value), "admin")
                                                 && (Contains(Lower(role.value), "teacher") || Contains(Lower(role.value), "staff"))))
  {
    if !Truthy(role) then defaultRole
    else
      var name := Lower(role.value);
      if Contains(name, "admin") then Admin
      else if Contains(name, "teacher") || Contains(name, "staff") then Teacher
      else Student
  }

  /** The letter case of the reported role does not matter. */
  lemma RoleIgnoresCase(role: string, defaultRole: UiRole)
    ensures UserRole(Some(role), defaultRole) == UserRole(Some(Lower(role)), defaultRole)
  {
    LowerIdempotent(role);
  }

  /** A text contains itself. */
  lemma ContainsSelf(s: string)
    ensures Contains(s, s)
  {
    assert ContainsAt(s, s, 0);
  }

  /** A text lacking one of the pattern's letters does not contain the pattern. */
  lemma MissingLetter(s: string, p: string, k: nat)
    requires k < |p| && p[k] !in s
    ensures !Contains(s, p)
  {
    forall i | 0 <= i <= |s| - |p| ensures !ContainsAt(s, p, i) {
      assert s[i + k] in s;
      assert s[i..i + |p|][k] == s[i + k];
    }
  }

  /** A backend student sees the student's UI. */
  lemma StudentRole(defaultRole: UiRole)
    ensures UserRole(Some("student"), defaultRole) == Student
  {
    LowerNoUpper("student");
    assert 'a' !in "student";
    assert "admin"[0] == 'a' && "staff"[2] == 'a' && "teacher"[2] == 'a';
    MissingLetter("student", "admin", 0);
    MissingLetter("student", "staff", 2);
    MissingLetter("student", "teacher", 2);
  }

  /** A backend staff member sees the teacher's UI. */
  lemma StaffRole(defaultRole: UiRole)
    ensures UserRole(Some("staff"), defaultRole) == Teacher
  {
    LowerNoUpper("staff");
    ContainsSelf("staff");
    assert "staff"[0..5] != "admin" by {
      assert "staff"[0] != "admin"[0];
    }
  }

  /** A backend administrator sees the admin UI. */
  lemma AdminRole(defaultRole: UiRole)
    ensures UserRole(Some("admin"), defaultRole) == Admin
  {
    LowerNoUpper("admin");
    ContainsSelf("admin");
  }
}
