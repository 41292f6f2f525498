/*
 * The bot's menu registry: menus registered by id, rendered as a title and
 * an inline keyboard of callback buttons.  Rows without buttons are left
 * out; a button without text or payload is left out of its row, but the row
 * itself stays, even when nothing is left in it.
 */
module AppMenu {
  import opened Common
  import AppBot

  /** MenuButton; the intent is the keyboard's button style, passed on as it is. */
  datatype MenuButton = MenuButton(text: string, payload: string, intent: string)

  datatype Menu = Menu(id: string, title: string, rows: seq<seq<MenuButton>>)

  /** A callback button as the keyboard builder receives it. */
  datatype Callback = Callback(text: string, intent: string, payload: string)

  /** renderMenu's result: the title and the rows the builder was given. */
  datatype Rendered = Rendered(title: string, keyboard: seq<seq<Callback>>)

  predicate Shown(b: MenuButton) {
    b.text != "" && b.payload != ""
  }

  function CallbackOf(b: MenuButton): Callback {
    Callback(b.text, b.intent, b.payload)
  }

  /** The callbacks one row contributes. */
  function RowCallbacks(row: seq<MenuButton>): seq<Callback> {
    if row == [] then []
    else (if Shown(row[0]) then [CallbackOf(row[0])] else []) + RowCallbacks(row[1..])
  }

  /** The keyboard rows of a menu. */
  function KeyboardRows(rows: seq<seq<MenuButton>>): seq<seq<Callback>> {
    if rows == [] then []
    else (if rows[0] == [] then [] else [RowCallbacks(rows[0])]) + KeyboardRows(rows[1..])
  }

  const NoBuilder := "menu: keyboard builder is nil"

  function NotRegistered(menuID: string): string {
    "menu " + AppBot.Quote(menuID) + " is not registered"
  }

  /**
   * renderMenu: an unknown menu is an error, so is a bot without a keyboard
   * builder; otherwise the title as registered and the keyboard of its rows.
   */
  function RenderSpec(menus: map<string, Menu>, menuID: string, hasBuilder: bool): Result<Rendered> {
    if menuID !in menus then Err(NotRegistered(menuID))
    else if !hasBuilder then Err(NoBuilder)
    else Ok(Rendered(menus[menuID].title, KeyboardRows(menus[menuID].rows)))
  }

  // ------------------------------------------------------------- keyboard

  /** A row's callbacks are those of its parts, in order. */
  lemma {:induction false} RowCallbacksAppend(a: seq<MenuButton>, b: seq<MenuButton>)
    ensures RowCallbacks(a + b) == RowCallbacks(a) + RowCallbacks(b)
    decreases |a|
  {
    if a == [] {
      assert a + b == b;
    } else {
      var head := if Shown(a[0]) then [CallbackOf(a[0])] else [];
      assert (a + b)[0] == a[0];
      assert (a + b)[1..] == a[1..] + b;
      assert RowCallbacks(a + b) == head + RowCallbacks(a[1..] + b);
      RowCallbacksAppend(a[1..], b);
      Regroup(head, RowCallbacks(a[1..]), RowCallbacks(b));
    }
  }

  /** One button: kept exactly when it has both text and payload. */
  lemma RowCallbacksOne(b: MenuButton)
    ensures RowCallbacks([b]) == if Shown(b) then [CallbackOf(b)] else []
  {
    assert [b][1..] == [];
  }

  /** Every callback of a row comes from a button of that row with text and payload, and each such button gives one. */
  lemma {:induction false} RowCallbacksExact(row: seq<MenuButton>)
    ensures forall c :: c in RowCallbacks(row) <==> exists b :: b in row && Shown(b) && c == CallbackOf(b)
    ensures forall c :: c in RowCallbacks(row) ==> c.text != "" && c.payload != ""
    ensures |RowCallbacks(row)| <= |row|
    decreases |row|
  {
    if row != [] {
      RowCallbacksExact(row[1..]);
      assert row == [row[0]] + row[1..];
      forall b | b in row ensures b == row[0] || b in row[1..] {
      }
    }
  }

  /** A row of buttons none of which has both text and payload gives no callbacks. */
  lemma {:induction false} RowCallbacksNone(row: seq<MenuButton>)
    requires forall j :: 0 <= j < |row| ==> !Shown(row[j])
    ensures RowCallbacks(row) == []
    decreases |row|
  {
    if row != [] {
      assert !Shown(row[0]);
      RowCallbacksNone(row[1..]);
    }
  }

  /** The keyboard of a menu is that of its parts, in order. */
  lemma {:induction false} KeyboardRowsAppend(a: seq<seq<MenuButton>>, b: seq<seq<MenuButton>>)
    ensures KeyboardRows(a + b) == KeyboardRows(a) + KeyboardRows(b)
    decreases |a|
  {
    if a == [] {
      assert a + b == b;
    } else {
      assert (a + b)[1..] == a[1..] + b;
      KeyboardRowsAppend(a[1..], b);
    }
  }

  /** One row: an empty row adds nothing; any other row adds one keyboard row, even an empty one. */
  lemma KeyboardRowsOne(row: seq<MenuButton>)
    ensures KeyboardRows([row]) == if row == [] then [] else [RowCallbacks(row)]
  {
    assert [row][1..] == [];
  }

  /** A row whose every button lacks text or payload still gives a keyboard row, with nothing in it. */
  lemma SkippedButtonsKeepRow(rows: seq<seq<MenuButton>>, k: nat)
    requires k < |rows| && rows[k] != [] && forall j :: 0 <= j < |rows[k]| ==> !Shown(rows[k][j])
    ensures [] in KeyboardRows(rows)
  {
    RowCallbacksNone(rows[k]);
    assert rows == rows[..k] + [rows[k]] + rows[k + 1..];
    KeyboardRowsAppend(rows[..k] + [rows[k]], rows[k + 1..]);
    KeyboardRowsAppend(rows[..k], [rows[k]]);
    KeyboardRowsOne(rows[k]);
  }

  /** The number of keyboard rows is the number of non-empty menu rows. */
  function NonEmptyRows(rows: seq<seq<MenuButton>>): nat {
    if rows == [] then 0 else (if rows[0] == [] then 0 else 1) + NonEmptyRows(rows[1..])
  }

  lemma {:induction false} KeyboardRowCount(rows: seq<seq<MenuButton>>)
    ensures |KeyboardRows(rows)| == NonEmptyRows(rows)
    decreases |rows|
  {
    if rows != [] {
      KeyboardRowCount(rows[1..]);
    }
  }

  // ------------------------------------------------------------- registry

  /** MenuRegistry: the registered menus by id. */
  class MenuRegistry {
    var menus: map<string, Menu>

    /** NewMenuRegistry: nothing registered. */
    constructor()
      ensures menus == map[]
    {
      menus := map[];
    }

    /** Register: a menu without an id is ignored; one with a registered id replaces it. */
    method Register(menu: Menu)
      modifies this
      ensures menus == if menu.id == "" then old(menus) else old(menus)[menu.id := menu]
    {
      if menu.id == "" {
        return;
      }
      menus := menus[menu.id := menu];
    }

    /** renderMenu, with `hasBuilder` standing for whether the bot hands out a keyboard builder. */
    method RenderMenu(menuID: string, hasBuilder: bool) returns (r: Result<Rendered>)
      ensures r == RenderSpec(menus, menuID, hasBuilder)
    {
      if menuID !in menus {
        return Err(NotRegistered(menuID));
      }
      var menu := menus[menuID];
      if !hasBuilder {
        return Err(NoBuilder);
      }
      var keyboard: seq<seq<Callback>> := [];
      var i := 0;
      while i < |menu.rows|
        invariant 0 <= i <= |menu.rows|
        invariant keyboard == KeyboardRows(menu.rows[..i])
      {
        var row := menu.rows[i];
        assert menu.rows[..i + 1] == menu.rows[..i] + [row];
        KeyboardRowsAppend(menu.rows[..i], [row]);
        KeyboardRowsOne(row);
        if |row| != 0 {
          var kbRow := AddRow(row);
          keyboard := keyboard + [kbRow];
        }
        i := i + 1;
      }
      assert menu.rows[..i] == menu.rows;
      return Ok(Rendered(menu.title, keyboard));
    }
  }

  /** The inner loop of renderMenu: the callbacks one keyboard row receives. */
  method AddRow(row: seq<MenuButton>) returns (kbRow: seq<Callback>)
    ensures kbRow == RowCallbacks(row)
  {
    kbRow := [];
    var j := 0;
    while j < |row|
      invariant 0 <= j <= |row|
      invariant kbRow == RowCallbacks(row[..j])
    {
      var btn := row[j];
      assert row[..j + 1] == row[..j] + [btn];
      RowCallbacksAppend(row[..j], [btn]);
      RowCallbacksOne(btn);
      if btn.text == "" || btn.payload == "" {
        j := j + 1;
        continue;
      }
      kbRow := kbRow + [CallbackOf(btn)];
      j := j + 1;
    }
    assert row[..j] == row;
  }

  // -------------------------------------------------------------- results

  /** Rendering after registering: the menu's own title and keyboard, or the missing-builder error. */
  lemma RenderRegistered(menus: map<string, Menu>, menu: Menu, hasBuilder: bool)
    requires menu.id != ""
    ensures RenderSpec(menus[menu.id := menu], menu.id, hasBuilder)
         == if hasBuilder then Ok(Rendered(menu.title, KeyboardRows(menu.rows))) else Err(NoBuilder)
  {
  }


  /** Rendering fails exactly for unknown menus and a missing builder. */
  lemma RenderFails(menus: map<string, Menu>, menuID: string, hasBuilder: bool)
    ensures RenderSpec(menus, menuID, hasBuilder).Err? <==> menuID !in menus || !hasBuilder
    ensures menuID !in menus ==> RenderSpec(menus, menuID, hasBuilder) == Err(NotRegistered(menuID))
  {
  }

  /** The message Send builds: the title as text, the user and chat when they are not zero, and the keyboard. */
  datatype Outgoing = Outgoing(text: string, user: Option<int>, chat: Option<int>, keyboard: seq<seq<Callback>>)

  function SendSpec(menus: map<string, Menu>, chatID: int, userID: int, menuID: string, hasBuilder: bool): (r: Result<Outgoing>)
    ensures r.Err? <==> RenderSpec(menus, menuID, hasBuilder).Err?
    ensures r.Ok? ==> r.value.text == menus[menuID].title && r.value.keyboard == KeyboardRows(menus[menuID].rows)
    ensures r.Ok? ==> (r.value.user.Some? <==> userID != 0) && (r.value.chat.Some? <==> chatID != 0)
  {
    match RenderSpec(menus, menuID, hasBuilder)
    case Err(e) => Err(e)
    case Ok(m) =>
      Ok(Outgoing(m.title, if userID != 0 then Some(userID) else None,
                  if chatID != 0 then Some(chatID) else None, m.keyboard))
  }
}
