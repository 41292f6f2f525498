/*
 * The bot framework under the application: slash-command names, the
 * parsing of an incoming message, the command registry, the per-user
 * session store and the order in which an incoming message is offered to
 * the session handler, the command and the fallback handlers.
 *
 * Handlers are Go closures in the bot; here a handler is an opaque token,
 * and what a handler returns when it runs is a parameter `outcome` of the
 * dispatch (the empty text meaning "no error").
 */
module AppBot {
  import opened Common

  // ------------------------------------------------------------- commands

  /** normalizeCommand: trimmed, without one leading slash, lower-cased. */
  function NormalizeCommand(name: string): string {
    Lower(TrimPrefix(TrimGo(name), "/"))
  }

  /**
   * The normalised name is the trimmed name, lower-cased, with one leading
   * slash taken off; it has no upper-case letter left.
   */
  lemma NormalizeCommandShape(name: string)
    ensures var t := TrimGo(name);
            Lower(t) == (if StartsWith(t, "/") then "/" else "") + NormalizeCommand(name)
    ensures forall k :: 0 <= k < |NormalizeCommand(name)| ==> !IsUpper(NormalizeCommand(name)[k])
  {
    LowerSlash(TrimGo(name));
    NoUpperLeft(TrimPrefix(TrimGo(name), "/"));
  }

  lemma LowerSlash(t: string)
    ensures Lower(t) == (if StartsWith(t, "/") then "/" else "") + Lower(TrimPrefix(t, "/"))
  {
    if StartsWith(t, "/") {
      assert t == "/" + t[1..];
      LowerConcat("/", t[1..]);
    } else {
      assert "" + Lower(t) == Lower(t);
    }
  }

  lemma NoUpperLeft(u: string)
    ensures forall k :: 0 <= k < |Lower(u)| ==> !IsUpper(Lower(u)[k])
  {
    LowerAt(u);
  }

  /** A slash-prefixed word between whitespace normalises to the word, lower-cased. */
  lemma NormalizeSlashWord(pre: string, w: string, post: string)
    requires Blank(pre, GoWs) && Blank(post, GoWs)
    requires w != [] && !GoSpace(w[|w| - 1])
    ensures NormalizeCommand(pre + "/" + w + post) == Lower(w)
  {
    SlashWordCut(pre, w, post);
  }

  lemma SlashWordCut(pre: string, w: string, post: string)
    requires Blank(pre, GoWs) && Blank(post, GoWs)
    requires w != [] && !GoSpace(w[|w| - 1])
    ensures TrimPrefix(TrimGo(pre + "/" + w + post), "/") == w
  {
    var sw := "/" + w;
    assert pre + "/" + w + post == pre + sw + post;
    TrimPadded(pre, sw, post, GoWs);
    assert sw[..1] == "/";
  }

  /** The examples of the command-name tests: "" stays "", "help" stays "help". */
  lemma NormalizePlain(x: string)
    requires x == "" || x == "help"
    ensures NormalizeCommand(x) == x
  {
    if x != "" {
      TrimUnchanged(x, GoWs);
      LowerAt(x);
    }
  }

  /** The example "   /Ping  " of the command-name tests. */
  lemma NormalizePadded(x: string)
    requires x == "   /Ping  "
    ensures NormalizeCommand(x) == "ping"
  {
    assert x == "   " + "/" + "Ping" + "  ";
    NormalizeSlashWord("   ", "Ping", "  ");
    LowerWord("Ping", "ping");
  }

  /** The example "/START" of the command-name tests. */
  lemma NormalizeStart(x: string)
    requires x == "/START"
    ensures NormalizeCommand(x) == "start"
  {
    assert x == "" + "/" + "START" + "";
    NormalizeSlashWord("", "START", "");
    LowerWord("START", "start");
  }

  lemma LowerWord(w: string, l: string)
    requires (w == "Ping" && l == "ping") || (w == "START" && l == "start")
    ensures Lower(w) == l
  {
    LowerAt(w);
  }

  /** Lower-casing never makes or removes whitespace. */
  lemma LowerNoSpace(u: string)
    requires NoSpace(u)
    ensures NoSpace(Lower(u))
  {
    LowerAt(u);
  }

  /** A name without whitespace is its own trim. */
  lemma TrimNoSpace(s: string)
    requires NoSpace(s)
    ensures TrimGo(s) == s
  {
    if s != [] {
      TrimUnchanged(s, GoWs);
    }
  }

  /**
   * Typing "/" before a normalised name reaches that name again: the
   * command text the bot shows for a registered command is recognised.
   */
  lemma SlashNormalized(name: string)
    requires NoSpace(name)
    ensures NormalizeCommand("/" + NormalizeCommand(name)) == NormalizeCommand(name)
  {
    TrimNoSpace(name);
    var u := TrimPrefix(name, "/");
    assert NoSpace(u);
    var n := Lower(u);
    LowerNoSpace(u);
    var s := "/" + n;
    assert NoSpace(s);
    TrimNoSpace(s);
    assert TrimPrefix(s, "/") == n;
    LowerIdempotent(u);
  }

  // -------------------------------------------------------------- messages

  /** MessageContext.Text: the message text without surrounding whitespace. */
  function MessageText(raw: string): string {
    TrimGo(raw)
  }

  /** MessageContext.Command: the normalised first field, only for a text that starts with "/". */
  function MessageCommand(raw: string): (r: string)
    ensures r != "" ==> StartsWith(MessageText(raw), "/")
  {
    var text := MessageText(raw);
    if text == "" || !StartsWith(text, "/") then ""
    else
      var first := Fields(text);
      if |first| == 0 then "" else NormalizeCommand(first[0])
  }

  /** MessageContext.Args: the fields after the first; none (nil) when there is at most one field. */
  function MessageArgs(raw: string): (r: seq<string>)
    ensures |Fields(MessageText(raw))| <= 1 ==> r == []
    ensures |Fields(MessageText(raw))| > 1 ==> [Fields(MessageText(raw))[0]] + r == Fields(MessageText(raw))
  {
    var parts := Fields(MessageText(raw));
    if |parts| <= 1 then [] else parts[1..]
  }

  /**
   * A message written as a command word and arguments, separated by single
   * spaces, yields the normalised command and exactly those arguments.
   */
  lemma CommandAndArgs(cmd: string, args: seq<string>)
    requires cmd != [] && cmd[0] == '/' && NoSpace(cmd)
    requires forall i :: 0 <= i < |args| ==> args[i] != [] && NoSpace(args[i])
    ensures MessageCommand(Join([cmd] + args, " ")) == NormalizeCommand(cmd)
    ensures MessageArgs(Join([cmd] + args, " ")) == args
  {
    var ws := [cmd] + args;
    var line := Join(ws, " ");
    FieldsOfJoin(ws);
    assert ws[1..] == args;
    JoinEdges(ws);
    TrimUnchanged(line, GoWs);
    assert StartsWith(line, "/");
    CommandOfFields(line, ws);
  }

  /** An untrimmable line starting with "/" has the normalised first field as its command. */
  lemma CommandOfFields(line: string, ws: seq<string>)
    requires TrimGo(line) == line && StartsWith(line, "/")
    requires Fields(line) == ws && |ws| > 0
    ensures MessageCommand(line) == NormalizeCommand(ws[0])
  {
  }

  /** A line of words starts with the first word's first character and ends with the last word's last one. */
  lemma {:induction false} JoinEdges(ws: seq<string>)
    requires |ws| >= 1 && forall i :: 0 <= i < |ws| ==> ws[i] != []
    ensures var line := Join(ws, " ");
            |line| > 0 && line[0] == ws[0][0] && line[|line| - 1] == ws[|ws| - 1][|ws[|ws| - 1]| - 1]
    decreases |ws|
  {
    if |ws| > 1 {
      JoinEdges(ws[1..]);
    }
  }

  /** The message of the parsing test. */
  lemma PingExample(raw: string)
    requires raw == "/Ping user1 user2"
    ensures MessageCommand(raw) == "ping"
    ensures MessageArgs(raw) == ["user1", "user2"]
  {
    var ws := ["/Ping", "user1", "user2"];
    PingLine(ws);
    CommandAndArgs(ws[0], ws[1..]);
    NormalizePing(ws[0]);
  }

  lemma NormalizePing(x: string)
    requires x == "/Ping"
    ensures NormalizeCommand(x) == "ping"
  {
    assert x == "" + "/" + "Ping" + "";
    NormalizeSlashWord("", "Ping", "");
    LowerWord("Ping", "ping");
  }

  lemma PingLine(ws: seq<string>)
    requires ws == ["/Ping", "user1", "user2"]
    ensures Join(ws, " ") == "/Ping user1 user2"
    ensures ws == [ws[0]] + ws[1..] && ws[1..] == ["user1", "user2"]
    ensures ws[0] != [] && ws[0][0] == '/' && NoSpace(ws[0])
    ensures forall i :: 0 <= i < |ws[1..]| ==> ws[1..][i] != [] && NoSpace(ws[1..][i])
  {
    JoinCons(ws[0], ws[1..], " ");
    JoinCons(ws[1], ws[2..], " ");
  }

  // -------------------------------------------------------------- sessions

  /** A Go map or slice that may be nil. */
  type Params = Option<map<string, string>>
  type Payload = Option<seq<bv8>>

  /** SessionState: the step a user is at, with its parameters and an opaque payload. */
  datatype SessionState = SessionState(step: string, params: Params, payload: Payload)

  const NoSession := SessionState("", None, None)

  /** cloneParams: nil for an empty (or nil) map, else a copy with the same entries. */
  function CloneParams(src: Params): (r: Params)
    ensures r.None? <==> src.None? || src.value == map[]
    ensures r.Some? ==> r.value == src.value
  {
    if src.None? || |src.value| == 0 then None else src
  }

  /** clonePayload: nil for an empty (or nil) slice, else a copy with the same bytes. */
  function ClonePayload(src: Payload): (r: Payload)
    ensures r.None? <==> src.None? || src.value == []
    ensures r.Some? ==> r.value == src.value
  {
    if src.None? || |src.value| == 0 then None else src
  }

  function CloneState(st: SessionState): SessionState {
    SessionState(st.step, CloneParams(st.params), ClonePayload(st.payload))
  }

  /** Copying a copy changes nothing: the store and the reader see the same state. */
  lemma CloneStateIdempotent(st: SessionState)
    ensures CloneState(CloneState(st)) == CloneState(st)
    ensures CloneState(st).step == st.step
  {
  }

  /** setSessionStateLocked: user 0 or an empty step deletes the entry, anything else stores a copy. */
  function StoreSession(sessions: map<int, SessionState>, userID: int, st: SessionState): map<int, SessionState> {
    if userID == 0 || st.step == "" then sessions - {userID}
    else sessions[userID := CloneState(st)]
  }

  /** SessionState: a copy of the stored state, or the zero state and false. */
  function LookupSession(sessions: map<int, SessionState>, userID: int): (SessionState, bool) {
    if userID in sessions then (CloneState(sessions[userID]), true) else (NoSession, false)
  }

  /**
   * Reading back what was stored gives a copy of it, or nothing for user 0
   * and for an empty step; every other user's state is untouched.
   */
  lemma SessionRoundTrip(sessions: map<int, SessionState>, userID: int, st: SessionState, other: int)
    requires other != userID
    ensures userID != 0 && st.step != "" ==> LookupSession(StoreSession(sessions, userID, st), userID) == (CloneState(st), true)
    ensures userID == 0 || st.step == "" ==> LookupSession(StoreSession(sessions, userID, st), userID) == (NoSession, false)
    ensures LookupSession(StoreSession(sessions, userID, st), other) == LookupSession(sessions, other)
  {
    CloneStateIdempotent(st);
  }

  /** What the session store keeps: no entry for user 0 and none with an empty step. */
  predicate SessionsValid(sessions: map<int, SessionState>) {
    forall id :: id in sessions ==> id != 0 && sessions[id].step != ""
  }

  lemma StoreKeepsValid(sessions: map<int, SessionState>, userID: int, st: SessionState)
    requires SessionsValid(sessions)
    ensures SessionsValid(StoreSession(sessions, userID, st))
    ensures SessionsValid(sessions - {userID})
  {
  }

  // -------------------------------------------------------------- registry

  /** A handler closure, known only by identity. */
  datatype Handler = Handler(id: nat)

  /** Command: what a caller registers; a nil handler is None. */
  datatype Command = Command(name: string, description: string, handler: Option<Handler>)

  datatype CommandEntry = CommandEntry(description: string, handler: Handler)

  datatype CommandInfo = CommandInfo(name: string, description: string)

  /** The command table and the order of first registration. */
  datatype Registry = Registry(order: seq<string>, entries: map<string, CommandEntry>)

  const EmptyRegistry := Registry([], map[])

  ghost predicate RegistryValid(reg: Registry) {
    && Distinct(reg.order)
    && (forall n :: n in reg.entries <==> n in reg.order)
    && "" !in reg.entries
  }

  /** Whether RegisterCommand takes the command: a non-empty normalised name and a handler. */
  predicate Accepted(cmd: Command) {
    NormalizeCommand(cmd.name) != "" && cmd.handler.Some?
  }

  /** RegisterCommand: a new name goes to the end of the order, a known one keeps its place and gets the new entry. */
  function Register(reg: Registry, cmd: Command): (r: Registry)
    ensures !Accepted(cmd) ==> r == reg
    ensures Accepted(cmd) ==> (NormalizeCommand(cmd.name) in r.entries &&
                               r.entries[NormalizeCommand(cmd.name)] == CommandEntry(cmd.description, cmd.handler.value))
    ensures forall n :: n != NormalizeCommand(cmd.name) && n in reg.entries ==> n in r.entries && r.entries[n] == reg.entries[n]
  {
    var name := NormalizeCommand(cmd.name);
    if name == "" || cmd.handler.None? then reg
    else
      Registry(if name in reg.entries then reg.order else reg.order + [name],
               reg.entries[name := CommandEntry(cmd.description, cmd.handler.value)])
  }

  /** Registering keeps the order free of repeats and in step with the table. */
  lemma RegisterValid(reg: Registry, cmd: Command)
    requires RegistryValid(reg)
    ensures RegistryValid(Register(reg, cmd))
    ensures Accepted(cmd) && NormalizeCommand(cmd.name) in reg.entries ==> Register(reg, cmd).order == reg.order
  {
    var name := NormalizeCommand(cmd.name);
    if Accepted(cmd) && name !in reg.entries {
      var o := reg.order + [name];
      forall i, j | 0 <= i < j < |o| ensures o[i] != o[j] {
        if j == |reg.order| { assert o[i] in reg.order; }
      }
    }
  }

  function RegisterAll(reg: Registry, cmds: seq<Command>): Registry
    decreases |cmds|
  {
    if cmds == [] then reg else RegisterAll(Register(reg, cmds[0]), cmds[1..])
  }

  /** The normalised names of the accepted commands, in registration order, repeats included. */
  function AcceptedNames(cmds: seq<Command>): seq<string>
    decreases |cmds|
  {
    if cmds == [] then []
    else (if Accepted(cmds[0]) then [NormalizeCommand(cmds[0].name)] else []) + AcceptedNames(cmds[1..])
  }

  /**
   * After any run of registrations the order holds each accepted name once,
   * where it was first registered: the first-occurrence deduplication of
   * the accepted names.
   */
  lemma {:induction false} RegisterAllOrder(reg: Registry, cmds: seq<Command>)
    requires RegistryValid(reg)
    ensures RegistryValid(RegisterAll(reg, cmds))
    ensures RegisterAll(reg, cmds).order == reg.order + DedupFrom(AcceptedNames(cmds), reg.entries.Keys)
    decreases |cmds|
  {
    if cmds != [] {
      var next := Register(reg, cmds[0]);
      RegisterValid(reg, cmds[0]);
      RegisterAllOrder(next, cmds[1..]);
      RegisterStepOrder(reg, cmds);
    } else {
      assert reg.order + [] == reg.order;
    }
  }

  /** One registration moves its name, if new, from the pending names to the order. */
  lemma RegisterStepOrder(reg: Registry, cmds: seq<Command>)
    requires cmds != []
    ensures var next := Register(reg, cmds[0]);
            next.order + DedupFrom(AcceptedNames(cmds[1..]), next.entries.Keys)
            == reg.order + DedupFrom(AcceptedNames(cmds), reg.entries.Keys)
  {
    var c := cmds[0];
    var rest := AcceptedNames(cmds[1..]);
    if Accepted(c) {
      var n := NormalizeCommand(c.name);
      assert AcceptedNames(cmds) == [n] + rest;
      NamedStep(reg, n, CommandEntry(c.description, c.handler.value), rest);
    } else {
      assert AcceptedNames(cmds) == rest;
    }
  }

  lemma NamedStep(reg: Registry, n: string, e: CommandEntry, rest: seq<string>)
    ensures var next := Registry(if n in reg.entries then reg.order else reg.order + [n], reg.entries[n := e]);
            next.order + DedupFrom(rest, next.entries.Keys) == reg.order + DedupFrom([n] + rest, reg.entries.Keys)
  {
    var keys := reg.entries.Keys;
    if n in reg.entries {
      assert reg.entries[n := e].Keys == keys;
      DedupKnown(n, rest, keys);
    } else {
      assert reg.entries[n := e].Keys == keys + {n};
      DedupNew(reg.order, n, rest, keys);
    }
  }

  lemma DedupKnown(n: string, rest: seq<string>, keys: set<string>)
    requires n in keys
    ensures DedupFrom([n] + rest, keys) == DedupFrom(rest, keys)
  {
    assert ([n] + rest)[1..] == rest;
  }

  lemma DedupNew(order: seq<string>, n: string, rest: seq<string>, keys: set<string>)
    requires n !in keys
    ensures order + [n] + DedupFrom(rest, keys + {n}) == order + DedupFrom([n] + rest, keys)
  {
    assert ([n] + rest)[1..] == rest;
    var d := DedupFrom(rest, keys + {n});
    assert DedupFrom([n] + rest, keys) == [n] + d;
    assert order + [n] + d == order + ([n] + d);
  }

  lemma RegistryFromScratch(cmds: seq<Command>)
    ensures RegistryValid(RegisterAll(EmptyRegistry, cmds))
    ensures RegisterAll(EmptyRegistry, cmds).order == Dedup(AcceptedNames(cmds))
  {
    RegisterAllOrder(EmptyRegistry, cmds);
    assert EmptyRegistry.entries.Keys == {};
  }

  /** Commands: one entry per name of the order, with its current description. */
  function Listing(reg: Registry): (r: seq<CommandInfo>)
    requires forall n :: n in reg.order ==> n in reg.entries
    ensures |r| == |reg.order|
    ensures forall i :: 0 <= i < |r| ==> r[i] == CommandInfo(reg.order[i], reg.entries[reg.order[i]].description)
  {
    seq(|reg.order|, i requires 0 <= i < |reg.order| => CommandInfo(reg.order[i], reg.entries[reg.order[i]].description))
  }

  // -------------------------------------------------------------- dispatch

  /** Which handlers ran, in order, and the error handleMessage returns ("" for none). */
  datatype Outcome = Outcome(called: seq<Handler>, err: string)

  /** The fallback loop: every handler in turn until the first one that fails. */
  function RunFallbacks(hs: seq<Handler>, outcome: Handler -> string): Outcome
    decreases |hs|
  {
    if hs == [] then Outcome([], "")
    else if outcome(hs[0]) != "" then Outcome([hs[0]], outcome(hs[0]))
    else
      var rest := RunFallbacks(hs[1..], outcome);
      Outcome([hs[0]] + rest.called, rest.err)
  }

  /** The fallbacks that ran are a prefix of the list, and all but the last of them succeeded. */
  lemma {:induction false} RunFallbacksPrefix(hs: seq<Handler>, outcome: Handler -> string)
    ensures var r := RunFallbacks(hs, outcome);
            && |r.called| <= |hs| && r.called == hs[..|r.called|]
            && (forall i :: 0 <= i < |r.called| - 1 ==> outcome(r.called[i]) == "")
    decreases |hs|
  {
    if hs != [] && outcome(hs[0]) == "" {
      RunFallbacksPrefix(hs[1..], outcome);
      var rest := RunFallbacks(hs[1..], outcome);
      assert hs[..|rest.called| + 1] == [hs[0]] + hs[1..][..|rest.called|];
    }
  }

  /**
   * The fallback loop fails with the error of the last handler it ran, and
   * succeeds exactly when every handler ran and succeeded.
   */
  lemma {:induction false} RunFallbacksResult(hs: seq<Handler>, outcome: Handler -> string)
    ensures var r := RunFallbacks(hs, outcome);
            && (r.err == "" <==> forall i :: 0 <= i < |hs| ==> outcome(hs[i]) == "")
            && (r.err == "" ==> r.called == hs)
            && (r.err != "" ==> r.called != [] && r.err == outcome(r.called[|r.called| - 1]))
    decreases |hs|
  {
    if hs != [] && outcome(hs[0]) == "" {
      RunFallbacksResult(hs[1..], outcome);
      assert forall i :: 0 <= i < |hs| - 1 ==> hs[1..][i] == hs[i + 1];
      assert hs == [hs[0]] + hs[1..];
    }
  }

  /** Go's %q on the text it wraps; no escaping is modelled. */
  function Quote(s: string): string { "\"" + s + "\"" }

  /** An error returned by a handler, wrapped with a prefix; the empty error counts as none. */
  function Wrap(prefix: string, e: string): string {
    if e == "" then "" else prefix + ": " + e
  }

  /** The session handler of the sender's step, when the sender has a session. */
  function SessionHandlerOf(sessions: map<int, SessionState>, handlers: map<string, Handler>, sender: int): Option<Handler> {
    if sender in sessions && sessions[sender].step in handlers then Some(handlers[sessions[sender].step]) else None
  }

  /**
   * handleMessage, for a message from `sender` whose command (the message
   * context's Command) is `command`: the session handler, else the
   * command's handler, else the fallbacks.
   */
  function Dispatch(sessions: map<int, SessionState>, sessionHandlers: map<string, Handler>,
                    commands: map<string, CommandEntry>, fallbacks: seq<Handler>,
                    sender: int, command: string, outcome: Handler -> string): Outcome
  {
    match SessionHandlerOf(sessions, sessionHandlers, sender)
    case Some(h) => Outcome([h], Wrap("session " + Quote(sessions[sender].step), outcome(h)))
    case None =>
      if command in commands then
        var h := commands[command].handler;
        Outcome([h], Wrap("command " + Quote(command), outcome(h)))
      else RunFallbacks(fallbacks, outcome)
  }

  /**
   * An active session takes the message whatever it says; otherwise a
   * registered command takes it, and nothing else runs; otherwise the
   * fallbacks run in order until one fails.  A message without a command
   * (plain text: MessageCommand is "" for any text not starting with "/")
   * never reaches a command handler.
   */
  lemma DispatchPriority(sessions: map<int, SessionState>, sessionHandlers: map<string, Handler>,
                         commands: map<string, CommandEntry>, fallbacks: seq<Handler>,
                         sender: int, command: string, outcome: Handler -> string)
    requires "" !in commands
    ensures var r := Dispatch(sessions, sessionHandlers, commands, fallbacks, sender, command, outcome);
            && (SessionHandlerOf(sessions, sessionHandlers, sender).Some? ==>
                  r.called == [SessionHandlerOf(sessions, sessionHandlers, sender).value])
            && (SessionHandlerOf(sessions, sessionHandlers, sender).None? && command in commands ==>
                  r.called == [commands[command].handler])
            && (SessionHandlerOf(sessions, sessionHandlers, sender).None? && command == "" ==>
                  r == RunFallbacks(fallbacks, outcome))
  {
  }

  /** A dispatch that fails reports the error of the last handler it ran. */
  lemma DispatchFailsLast(sessions: map<int, SessionState>, sessionHandlers: map<string, Handler>,
                          commands: map<string, CommandEntry>, fallbacks: seq<Handler>,
                          sender: int, command: string, outcome: Handler -> string)
    ensures var r := Dispatch(sessions, sessionHandlers, commands, fallbacks, sender, command, outcome);
            r.err != "" ==> r.called != [] && outcome(r.called[|r.called| - 1]) != ""
  {
    RunFallbacksResult(fallbacks, outcome);
  }

  // ------------------------------------------------------------ notifying

  const ErrUserNotPositive := "appbot: user id must be positive"
  const ErrTextEmpty := "appbot: text is empty"

  /** A message handed to the sender: its text and the user and chat it is addressed to (0 when not set). */
  datatype OutMessage = OutMessage(text: string, userId: int, chatId: int)

  /** sendText: nothing is sent for an empty text. */
  function SendText(text: string, userID: int, chatID: int): (r: Option<OutMessage>)
    ensures r.None? <==> text == ""
  {
    if text == "" then None else Some(OutMessage(text, userID, chatID))
  }

  /** NotifyUser: the trimmed text to a positive user id, with no chat. */
  function NotifyUser(userID: int, text: string): (r: Result<OutMessage>)
    ensures userID <= 0 ==> r == Err(ErrUserNotPositive)
    ensures userID > 0 && Blank(text, GoWs) ==> r == Err(ErrTextEmpty)
    ensures r.Ok? <==> userID > 0 && !Blank(text, GoWs)
    ensures r.Ok? ==> r.value == OutMessage(TrimGo(text), userID, 0) && r.value.text != ""
  {
    var t := TrimGo(text);
    TrimEmptyIffBlank(text, GoWs);
    if userID <= 0 then Err(ErrUserNotPositive)
    else if t == "" then Err(ErrTextEmpty)
    else match SendText(t, userID, 0)
      case Some(m) => Ok(m)
      case None => Err(ErrTextEmpty)
  }

  /** The text a user is notified with has no whitespace at either end. */
  lemma NotifyTextTrimmed(userID: int, text: string)
    requires NotifyUser(userID, text).Ok?
    ensures var m := NotifyUser(userID, text).value.text;
            !GoSpace(m[0]) && !GoSpace(m[|m| - 1]) && TrimGo(m) == m
  {
    TrimWithSpec(text, GoWs);
    TrimIdempotent(text, GoWs);
  }

  // --------------------------------------------------------------- service

  /** Service: the command registry, fallbacks, session handlers and the session store. */
  class Service {
    var commandOrder: seq<string>
    var commands: map<string, CommandEntry>
    var messageHandlers: seq<Handler>
    var sessions: map<int, SessionState>
    var sessionHandlers: map<string, Handler>

    ghost predicate Valid()
      reads this
    {
      RegistryValid(Registry(commandOrder, commands)) && SessionsValid(sessions) && "" !in sessionHandlers
    }

    /** NewService: every table empty. */
    constructor()
      ensures Valid()
      ensures commandOrder == [] && commands == map[] && messageHandlers == []
      ensures sessions == map[] && sessionHandlers == map[]
    {
      commandOrder := [];
      commands := map[];
      messageHandlers := [];
      sessions := map[];
      sessionHandlers := map[];
    }

    method RegisterCommand(cmd: Command)
      requires Valid()
      modifies this
      ensures Valid()
      ensures Registry(commandOrder, commands) == Register(old(Registry(commandOrder, commands)), cmd)
      ensures messageHandlers == old(messageHandlers) && sessions == old(sessions) && sessionHandlers == old(sessionHandlers)
    {
      RegisterValid(Registry(commandOrder, commands), cmd);
      var name := NormalizeCommand(cmd.name);
      if name == "" || cmd.handler.None? {
        return;
      }
      if name !in commands {
        commandOrder := commandOrder + [name];
      }
      commands := commands[name := CommandEntry(cmd.description, cmd.handler.value)];
    }

    /** RegisterMessageHandler: a nil handler is ignored. */
    method RegisterMessageHandler(handler: Option<Handler>)
      requires Valid()
      modifies this
      ensures Valid()
      ensures messageHandlers == old(messageHandlers) + (if handler.Some? then [handler.value] else [])
      ensures commandOrder == old(commandOrder) && commands == old(commands)
      ensures sessions == old(sessions) && sessionHandlers == old(sessionHandlers)
    {
      if handler.Some? {
        messageHandlers := messageHandlers + [handler.value];
      }
    }

    /** RegisterSessionHandler: an empty step or a nil handler is ignored; a known step is replaced. */
    method RegisterSessionHandler(step: string, handler: Option<Handler>)
      requires Valid()
      modifies this
      ensures Valid()
      ensures sessionHandlers == if step == "" || handler.None? then old(sessionHandlers) else old(sessionHandlers)[step := handler.value]
      ensures commandOrder == old(commandOrder) && commands == old(commands)
      ensures sessions == old(sessions) && messageHandlers == old(messageHandlers)
    {
      if step != "" && handler.Some? {
        sessionHandlers := sessionHandlers[step := handler.value];
      }
    }

    /** Commands: the registered commands in registration order. */
    method Commands() returns (result: seq<CommandInfo>)
      requires Valid()
      ensures result == Listing(Registry(commandOrder, commands))
    {
      result := [];
      var i := 0;
      while i < |commandOrder|
        invariant 0 <= i <= |commandOrder|
        invariant |result| == i
        invariant forall j :: 0 <= j < i ==> result[j] == CommandInfo(commandOrder[j], commands[commandOrder[j]].description)
      {
        var name := commandOrder[i];
        var entry := commands[name];
        result := result + [CommandInfo(name, entry.description)];
        i := i + 1;
      }
    }

    method SetSessionState(userID: int, state: SessionState)
      requires Valid()
      modifies this
      ensures Valid()
      ensures sessions == StoreSession(old(sessions), userID, state)
      ensures commandOrder == old(commandOrder) && commands == old(commands)
      ensures messageHandlers == old(messageHandlers) && sessionHandlers == old(sessionHandlers)
    {
      StoreKeepsValid(sessions, userID, state);
      if userID == 0 || state.step == "" {
        sessions := sessions - {userID};
        return;
      }
      sessions := sessions[userID := SessionState(state.step, CloneParams(state.params), ClonePayload(state.payload))];
    }

    method ClearSessionState(userID: int)
      requires Valid()
      modifies this
      ensures Valid()
      ensures sessions == old(sessions) - {userID}
      ensures commandOrder == old(commandOrder) && commands == old(commands)
      ensures messageHandlers == old(messageHandlers) && sessionHandlers == old(sessionHandlers)
    {
      sessions := sessions - {userID};
    }

    method GetSessionState(userID: int) returns (state: SessionState, ok: bool)
      ensures (state, ok) == LookupSession(sessions, userID)
      ensures ok <==> userID in sessions
    {
      if userID !in sessions {
        return NoSession, false;
      }
      var st := sessions[userID];
      return SessionState(st.step, CloneParams(st.params), ClonePayload(st.payload)), true;
    }

    /** handleMessage, for a message from `sender` with text `raw`. */
    method HandleMessage(sender: int, raw: string, outcome: Handler -> string) returns (r: Outcome)
      requires Valid()
      ensures r == Dispatch(sessions, sessionHandlers, commands, messageHandlers, sender, MessageCommand(raw), outcome)
    {
      if sender in sessions {
        var state := sessions[sender];
        if state.step in sessionHandlers {
          var h := sessionHandlers[state.step];
          return Outcome([h], Wrap("session " + Quote(state.step), outcome(h)));
        }
      }
      var name := MessageCommand(raw);
      if name in commands {
        var h := commands[name].handler;
        return Outcome([h], Wrap("command " + Quote(name), outcome(h)));
      }
      r := RunHandlers(messageHandlers, outcome);
    }
  }

  /** The fallback loop of handleMessage. */
  method RunHandlers(hs: seq<Handler>, outcome: Handler -> string) returns (r: Outcome)
    ensures r == RunFallbacks(hs, outcome)
  {
    var i := 0;
    while i < |hs|
      invariant 0 <= i <= |hs|
      invariant forall j :: 0 <= j < i ==> outcome(hs[j]) == ""
      invariant RunFallbacks(hs, outcome) == Outcome(hs[..i] + RunFallbacks(hs[i..], outcome).called, RunFallbacks(hs[i..], outcome).err)
    {
      assert hs[i..][1..] == hs[i + 1..];
      var e := outcome(hs[i]);
      if e != "" {
        return Outcome(hs[..i + 1], e);
      }
      assert hs[..i] + [hs[i]] == hs[..i + 1];
      i := i + 1;
    }
    assert hs[..i] == hs;
    return Outcome(hs, "");
  }
}
