/*
 * The mini-app's main menu: a fixed tree of items per role.  Students get
 * the events feed, electives and a profile section with the library; staff
 * get the events feed, the document workflow and a profile section with
 * help only; administrators get the staff menu with an admin panel before
 * the profile section.
 */
module MenuService {
  import opened Common
  import opened UserService

  /**
   * MenuItem as the service builds it: a link to a route, or a section with
   * children and no route.  Every item carries an icon.
   */
  datatype MenuItem =
    | Link(id: string, title: string, icon: string, route: string)
    | Section(id: string, title: string, icon: string, children: seq<MenuItem>)

  const Events := Link("events", "Лента мероприятий", "calendar", "/events")
  const Electives := Link("electives", "Элективы", "book", "/electives")
  const Library := Link("library", "Библиотека", "library", "/library/access")
  const Help := Link("help", "Помощь", "help", "/help")

  const Documents := Section("documents", "Документооборот", "file-text", [
    Link("my-requests", "Мои заявки", "inbox", "/requests/my"),
    Link("approval", "Согласование заявок", "check-circle", "/requests/approval"),
    Link("vacation", "Отпуск", "briefcase", "/requests?type=vacation")])

  const AdminPanel := Section("admin", "Админ-панель", "settings", [
    Link("users", "Пользователи", "users", "/admin/users"),
    Link("events-management", "Управление мероприятиями", "calendar", "/admin/events"),
    Link("library-management", "Управление библиотекой", "library", "/admin/library")])

  function Profile(children: seq<MenuItem>): MenuItem {
    Section("profile", "Личный кабинет", "user", children)
  }

  const StudentMenu := [Events, Electives, Profile([Library, Help])]
  const StaffMenu := [Events, Documents, Profile([Help])]
  const AdminMenu := [Events, Documents, AdminPanel, Profile([Help])]

  /** get_menu_for_role: the role enum compares equal to its string value; any other value gets an empty menu. */
  function MenuFor(role: string): seq<MenuItem> {
    if role == RoleValue(StudentRole) then StudentMenu
    else if role == RoleValue(StaffRole) then StaffMenu
    else if role == RoleValue(AdminRole) then AdminMenu
    else []
  }

  /** The menu of each role of the system. */
  lemma MenuOfRole(role: Role)
    ensures MenuFor(RoleValue(role)) == match role
                                        case StudentRole => StudentMenu
                                        case StaffRole => StaffMenu
                                        case AdminRole => AdminMenu
  {
  }

  /** A value that names no role gets an empty menu. */
  lemma OtherRoleEmpty(role: string)
    requires forall r: Role :: role != RoleValue(r)
    ensures MenuFor(role) == []
  {
    assert role != RoleValue(StudentRole) && role != RoleValue(StaffRole) && role != RoleValue(AdminRole);
  }

  // ------------------------------------------------------------ the tree

  /** The ids of every item of a menu tree, each before its children's, in display order. */
  function Ids(items: seq<MenuItem>): seq<string>
    decreases items
  {
    if items == [] then [] else TreeIds(items[0]) + Ids(items[1..])
  }

  function TreeIds(m: MenuItem): seq<string>
    decreases m
  {
    match m
    case Link(id, _, _, _) => [id]
    case Section(id, _, _, c) => [id] + Ids(c)
  }

  /** The routes a menu tree leads to: those of its links, at any depth. */
  function Routes(items: seq<MenuItem>): set<string>
    decreases items
  {
    if items == [] then {} else TreeRoutes(items[0]) + Routes(items[1..])
  }

  function TreeRoutes(m: MenuItem): set<string>
    decreases m
  {
    match m
    case Link(_, _, _, route) => {route}
    case Section(_, _, _, c) => Routes(c)
  }

  /** Ids and routes of a list are those of its first item followed by those of the rest. */
  lemma Cons(m: MenuItem, rest: seq<MenuItem>)
    ensures Ids([m] + rest) == TreeIds(m) + Ids(rest)
    ensures Routes([m] + rest) == TreeRoutes(m) + Routes(rest)
  {
    assert ([m] + rest)[1..] == rest;
  }

  lemma One(a: MenuItem)
    ensures Ids([a]) == TreeIds(a) && Routes([a]) == TreeRoutes(a)
  {
    Cons(a, []);
    assert [a] + [] == [a];
  }

  lemma Two(a: MenuItem, b: MenuItem)
    ensures Ids([a, b]) == TreeIds(a) + TreeIds(b)
    ensures Routes([a, b]) == TreeRoutes(a) + TreeRoutes(b)
  {
    Cons(a, [b]);
    One(b);
    assert [a] + [b] == [a, b];
  }

  lemma Three(a: MenuItem, b: MenuItem, c: MenuItem)
    ensures Ids([a, b, c]) == TreeIds(a) + TreeIds(b) + TreeIds(c)
    ensures Routes([a, b, c]) == TreeRoutes(a) + TreeRoutes(b) + TreeRoutes(c)
  {
    Cons(a, [b, c]);
    Two(b, c);
    assert [a] + [b, c] == [a, b, c];
  }

  lemma Four(a: MenuItem, b: MenuItem, c: MenuItem, d: MenuItem)
    ensures Ids([a, b, c, d]) == TreeIds(a) + TreeIds(b) + TreeIds(c) + TreeIds(d)
    ensures Routes([a, b, c, d]) == TreeRoutes(a) + TreeRoutes(b) + TreeRoutes(c) + TreeRoutes(d)
  {
    Cons(a, [b, c, d]);
    Three(b, c, d);
    assert [a] + [b, c, d] == [a, b, c, d];
  }

  lemma DocumentsTree()
    ensures TreeIds(Documents) == ["documents", "my-requests", "approval", "vacation"]
    ensures TreeRoutes(Documents) == {"/requests/my", "/requests/approval", "/requests?type=vacation"}
  {
    Three(Documents.children[0], Documents.children[1], Documents.children[2]);
  }

  lemma AdminPanelTree()
    ensures TreeIds(AdminPanel) == ["admin", "users", "events-management", "library-management"]
    ensures TreeRoutes(AdminPanel) == {"/admin/users", "/admin/events", "/admin/library"}
  {
    Three(AdminPanel.children[0], AdminPanel.children[1], AdminPanel.children[2]);
  }

  lemma StudentIds()
    ensures Ids(StudentMenu) == ["events", "electives", "profile", "library", "help"]
  {
    Three(Events, Electives, Profile([Library, Help]));
    Two(Library, Help);
  }

  lemma StudentRoutes()
    ensures Routes(StudentMenu) == {"/events", "/electives", "/library/access", "/help"}
  {
    Three(Events, Electives, Profile([Library, Help]));
    Two(Library, Help);
  }

  lemma StaffIds()
    ensures Ids(StaffMenu) == ["events", "documents", "my-requests", "approval", "vacation", "profile", "help"]
  {
    Three(Events, Documents, Profile([Help]));
    DocumentsTree();
    One(Help);
  }

  lemma StaffRoutes()
    ensures Routes(StaffMenu) == {"/events", "/requests/my", "/requests/approval", "/requests?type=vacation", "/help"}
  {
    Three(Events, Documents, Profile([Help]));
    DocumentsTree();
    One(Help);
  }

  lemma AdminIds()
    ensures Ids(AdminMenu)
         == ["events", "documents", "my-requests", "approval", "vacation", "admin",
             "users", "events-management", "library-management", "profile", "help"]
  {
    Four(Events, Documents, AdminPanel, Profile([Help]));
    DocumentsTree();
    AdminPanelTree();
    One(Help);
  }

  lemma AdminRoutes()
    ensures Routes(AdminMenu)
         == {"/events", "/requests/my", "/requests/approval", "/requests?type=vacation",
             "/admin/users", "/admin/events", "/admin/library", "/help"}
  {
    Four(Events, Documents, AdminPanel, Profile([Help]));
    DocumentsTree();
    AdminPanelTree();
    One(Help);
  }

  // ------------------------------------------------------------ properties

  /** The administrator's menu is the staff menu with the admin panel before the profile section. */
  lemma AdminExtendsStaff()
    ensures AdminMenu == StaffMenu[..2] + [AdminPanel] + StaffMenu[2..]
    ensures Routes(AdminMenu) == Routes(StaffMenu) + TreeRoutes(AdminPanel)
  {
    StaffRoutes();
    AdminRoutes();
    AdminPanelTree();
  }

  /** The routes a menu offers, in the terms the roles differ by. */
  predicate RoutesFit(role: Role, menu: seq<MenuItem>) {
    && ("/library/access" in Routes(menu) <==> role == StudentRole)
    && ("/requests/approval" in Routes(menu) <==> role != StudentRole)
    && ("/admin/users" in Routes(menu) <==> role == AdminRole)
    && "/help" in Routes(menu)
  }

  lemma StudentShows()
    ensures Distinct(Ids(StudentMenu)) && RoutesFit(StudentRole, StudentMenu)
  {
    StudentIds();
    StudentRoutes();
  }

  lemma StaffShows()
    ensures Distinct(Ids(StaffMenu)) && RoutesFit(StaffRole, StaffMenu)
  {
    StaffIds();
    StaffRoutes();
  }

  lemma AdminIdsDistinct(ids: seq<string>)
    requires ids == ["events", "documents", "my-requests", "approval", "vacation", "admin",
                     "users", "events-management", "library-management", "profile", "help"]
    ensures Distinct(ids)
  {
  }

  lemma AdminDistinct()
    ensures Distinct(Ids(AdminMenu))
  {
    AdminIds();
    AdminIdsDistinct(Ids(AdminMenu));
  }

  lemma AdminFits()
    ensures RoutesFit(AdminRole, AdminMenu)
  {
    AdminRoutes();
  }

  /**
   * No two items of any menu share an id; only students see the library,
   * only staff and administrators the document workflow, only
   * administrators the user list; everyone sees help.
   */
  lemma MenuByRole(role: Role)
    ensures Distinct(Ids(MenuFor(RoleValue(role))))
    ensures "/library/access" in Routes(MenuFor(RoleValue(role))) <==> role == StudentRole
    ensures "/requests/approval" in Routes(MenuFor(RoleValue(role))) <==> role != StudentRole
    ensures "/admin/users" in Routes(MenuFor(RoleValue(role))) <==> role == AdminRole
    ensures "/help" in Routes(MenuFor(RoleValue(role)))
  {
    MenuOfRole(role);
    if role == StudentRole {
      StudentShows();
    } else if role == StaffRole {
      StaffShows();
    } else {
      AdminDistinct();
      AdminFits();
    }
    assert RoutesFit(role, MenuFor(RoleValue(role)));
  }
}
