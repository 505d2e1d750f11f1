/** model/user_model.py: `TelegramUserClient`, the state machine of
    model/telegram_client.py behind a role-based permission gate, with the
    commands that manage users and admins. `PUBLIC_USER` is the `public`
    parameter. */
module Permission {
  import opened Base
  import opened Text
  import opened Store
  import opened Telegram
  import Controller

  // ------------------------------------------------------------ usernames

  /** The username as `get_user_permission`, `add_admin` and `add_user`
      store and look it up: lowercased, with '@' prepended when it has none. */
  function Normalise(name: string): (r: string)
    ensures '@' in r
    ensures r == Lower(name) || r == "@" + Lower(name)
    ensures |r| == |name| <==> '@' in name
  {
    var lowered := Lower(name);
    LowerKeepsAt(name);
    if '@' in lowered then lowered else "@" + lowered
  }

  lemma LowerConsAt(x: string)
    ensures Lower("@" + x) == "@" + Lower(x)
  {
  }

  /** A normalised username is lowercase and normalises to itself. */
  lemma NormaliseIdempotent(name: string)
    ensures Lower(Normalise(name)) == Normalise(name)
    ensures Normalise(Normalise(name)) == Normalise(name)
  {
    LowerIdempotent(name);
    LowerConsAt(Lower(name));
  }

  /** '@Bob', '@bob', 'Bob' and 'bob' all name the same user. */
  lemma NormaliseIgnoresAtAndCase(x: string)
    requires '@' !in x
    ensures Normalise("@" + x) == Normalise(x)
    ensures Normalise(Lower(x)) == Normalise(x)
  {
    LowerConsAt(x);
    LowerKeepsAt(x);
    LowerIdempotent(x);
    LowerKeepsAt(Lower(x));
  }

  /** Usernames without '@' that differ other than in case keep different
      keys, so normalising never merges two users. */
  lemma NormaliseSeparates(a: string, b: string)
    requires '@' !in a && '@' !in b
    requires Normalise(a) == Normalise(b)
    ensures Lower(a) == Lower(b)
  {
    LowerKeepsAt(a);
    LowerKeepsAt(b);
    assert Lower(a) == Normalise(a)[1..];
    assert Lower(b) == Normalise(b)[1..];
  }

  // ------------------------------------------------------ get_user_permission

  /** `get_user_permission(database, username)`: a missing or unknown
      username is 'user' when the bot is public and nobody otherwise; a
      known one has its stored type. */
  function GetUserPermission(db: Database, public: bool, username: Option<string>): (r: Option<Role>)
    ensures username.Some? && FindUser(db, Normalise(username.value)).Some? ==>
              r == FindUser(db, Normalise(username.value))
    ensures (username.None? || FindUser(db, Normalise(username.value)).None?) ==>
              r == (if public then Some(UserRole) else None)
  {
    match username
    case None => if public then Some(UserRole) else None
    case Some(name) =>
      match FindUser(db, Normalise(name))
      case None => if public then Some(UserRole) else None
      case Some(kind) => Some(kind)
  }

  // ------------------------------------------------ handle_permission / level

  /** The name a role is stored and shown under. */
  function RoleName(kind: Role): string {
    match kind
    case UserRole => "user"
    case AdminRole => "admin"
    case RootAdminRole => "root_admin"
  }

  /** `permission_level(level)`: the roles a handler of that level accepts. */
  function Allowed(level: Role): set<Role> {
    match level
    case RootAdminRole => {RootAdminRole}
    case AdminRole => {AdminRole, RootAdminRole}
    case UserRole => {UserRole, AdminRole, RootAdminRole}
  }

  /** The rank of a role: user below admin below root_admin. */
  function Rank(kind: Role): nat {
    match kind
    case UserRole => 0
    case AdminRole => 1
    case RootAdminRole => 2
  }

  /** A level accepts exactly the roles ranked at least as high, so the
      levels nest: root_admin within admin within user. */
  lemma AllowedByRank(level: Role, kind: Role)
    ensures kind in Allowed(level) <==> Rank(kind) >= Rank(level)
    ensures Allowed(RootAdminRole) <= Allowed(AdminRole) <= Allowed(UserRole)
  {
  }

  /** Whether the handler runs, and whether 'Permission denied.' is sent. */
  datatype Decision = Decision(pass: bool, denied: bool)

  /** `handle_permission(src_type, exp_type, update)`. */
  function HandlePermission(src: Option<Role>, allowed: set<Role>, public: bool): (d: Decision)
    ensures d.pass <==> (src.Some? && src.value in allowed) || (public && src.None? && UserRole in allowed)
    ensures d.denied <==> src.Some? && src.value !in allowed
  {
    if src.None? || src.value !in allowed then
      if public && src.None? && UserRole in allowed then Decision(true, false)
      else if src.None? then Decision(false, false)
      else Decision(false, true)
    else Decision(true, false)
  }

  /** Who sent an update: a channel post has no effective user; a person
      may or may not have a username. */
  datatype Sender = Channel | Person(username: Option<string>)

  /** The role of the sender, as the wrapper and the handlers look it up. */
  function RoleOf(db: Database, public: bool, sender: Sender): Option<Role> {
    match sender
    case Channel => None
    case Person(name) => GetUserPermission(db, public, name)
  }

  /** The wrapper of `permission_level(level)`: channel posts are ignored
      silently; otherwise the sender's role decides. */
  function Gate(db: Database, public: bool, sender: Sender, level: Role): (d: Decision)
    ensures sender.Channel? ==> d == Decision(false, false)
    ensures sender.Person? ==> d == HandlePermission(RoleOf(db, public, sender), Allowed(level), public)
    ensures d.pass <==> sender.Person? && RoleOf(db, public, sender).Some?
                        && Rank(RoleOf(db, public, sender).value) >= Rank(level)
    ensures d.denied <==> sender.Person? && RoleOf(db, public, sender).Some?
                          && Rank(RoleOf(db, public, sender).value) < Rank(level)
  {
    if sender.Channel? then Decision(false, false)
    else
      var src := GetUserPermission(db, public, sender.username);
      assert src.Some? ==> (src.value in Allowed(level) <==> Rank(src.value) >= Rank(level)) by {
        if src.Some? {
          AllowedByRank(level, src.value);
        }
      }
      HandlePermission(src, Allowed(level), public)
  }

  /** Passing a stricter level means passing every looser one, and a
      denial at a looser level is a denial at every stricter one. */
  lemma GateNests(db: Database, public: bool, sender: Sender, strict: Role, loose: Role)
    requires Rank(loose) <= Rank(strict)
    ensures Gate(db, public, sender, strict).pass ==> Gate(db, public, sender, loose).pass
    ensures Gate(db, public, sender, loose).denied ==> Gate(db, public, sender, strict).denied
  {
    var src := RoleOf(db, public, sender);
    if src.Some? {
      AllowedByRank(strict, src.value);
      AllowedByRank(loose, src.value);
    }
    AllowedByRank(strict, UserRole);
    AllowedByRank(loose, UserRole);
  }

  /** Only a registered sender that fails the level is told so; everyone
      else who fails is ignored. */
  lemma DenialOnlyForKnownRoles(db: Database, public: bool, sender: Sender, level: Role)
    ensures Gate(db, public, sender, level).denied ==>
              && sender.Person?
              && RoleOf(db, public, sender).Some?
              && Rank(RoleOf(db, public, sender).value) < Rank(level)
              && !Gate(db, public, sender, level).pass
  {
    var src := RoleOf(db, public, sender);
    if src.Some? {
      AllowedByRank(level, src.value);
    }
  }

  // ------------------------------------------------- add_admin / add_user

  /** `add_admin` ('addadmin', admin) and `add_user` ('adduser', user): the
      argument is normalised and inserted with that type if absent. */
  function AddMember(db: Database, command: string, text: string, kind: Role): (r: (Database, Reply))
    ensures ExtractArgs(command, text).None? ==> r == (db, AddUsage(kind))
    ensures ExtractArgs(command, text).Some? ==>
              var name := Normalise(ExtractArgs(command, text).value);
              && r.1 == Added(kind, name)
              && FindUser(r.0, name) == (if FindUser(db, name).Some? then FindUser(db, name) else Some(kind))
    ensures forall other :: other != (if ExtractArgs(command, text).Some? then Normalise(ExtractArgs(command, text).value) else "") ==>
              FindUser(r.0, other) == FindUser(db, other)
    ensures r.0.faces == db.faces && r.0.notes == db.notes && r.0.models == db.models
  {
    match ExtractArgs(command, text)
    case None => (db, AddUsage(kind))
    case Some(arg) =>
      var name := Normalise(arg);
      (AddUser(db, name, kind), Added(kind, name))
  }

  /** `extract_args` gives back what followed the marker. */
  lemma ExtractArgsOf(command: string, arg: string)
    requires arg != "" && !Occurs(arg, Marker(command))
    ensures ExtractArgs(command, Marker(command) + arg) == Some(arg)
  {
    var m := Marker(command);
    var text := m + arg;
    assert OccursAt(text, m, 0);
    assert text[|m|..] == arg;
    assert Split(text, m) == [text[..0]] + Split(arg, m);
  }

  /** Adding a new member and then looking up any spelling of the same
      username resolves to the type just granted. */
  lemma AddMemberGrantsRole(db: Database, public: bool, command: string, arg: string, kind: Role, username: string)
    requires arg != "" && !Occurs(arg, Marker(command))
    requires FindUser(db, Normalise(arg)).None?
    requires Normalise(username) == Normalise(arg)
    ensures GetUserPermission(AddMember(db, command, Marker(command) + arg, kind).0, public, Some(username)) == Some(kind)
  {
    ExtractArgsOf(command, arg);
  }

  /** '/addadmin' cannot promote: an existing username keeps its type. */
  lemma AddMemberNeverPromotes(db: Database, public: bool, command: string, text: string, kind: Role, username: string)
    requires FindUser(db, Normalise(username)).Some?
    ensures GetUserPermission(AddMember(db, command, text, kind).0, public, Some(username)) ==
            GetUserPermission(db, public, Some(username))
  {
  }

  // ---------------------------------------------------------- ROOT_ADMINS

  /** One line of the root token file as a ROOT_ADMINS entry: its newlines
      removed and the rest lowercased. */
  function RootEntry(line: string): string {
    Lower(ReplaceAll(line, "\n", ""))
  }

  /** The ROOT_ADMINS list built from the lines of the root token file:
      newlines removed, empty lines dropped, the rest lowercased. Every
      entry comes from some line. */
  function RootAdmins(lines: seq<string>): (roots: seq<string>)
    ensures |roots| <= |lines|
    ensures forall i :: 0 <= i < |roots| ==> roots[i] != "" && Lower(roots[i]) == roots[i]
    ensures forall e :: e in roots ==> exists i :: 0 <= i < |lines| && RootEntry(lines[i]) == e
    decreases |lines|
  {
    if |lines| == 0 then []
    else
      var line := ReplaceAll(lines[0], "\n", "");
      LowerIdempotent(line);
      var rest := RootAdmins(lines[1..]);
      assert forall e :: e in rest ==> exists i :: 0 <= i < |lines| && RootEntry(lines[i]) == e by {
        forall e | e in rest
          ensures exists i :: 0 <= i < |lines| && RootEntry(lines[i]) == e
        {
          var k :| 0 <= k < |lines[1..]| && RootEntry(lines[1..][k]) == e;
          assert RootEntry(lines[k + 1]) == e;
        }
      }
      assert RootEntry(lines[0]) == Lower(line);
      (if line == "" then [] else [Lower(line)]) + rest
  }

  /** Conversely, every line that is not blank once its newlines are
      removed gives an entry. */
  lemma {:induction false} RootAdminsKeepsEveryLine(lines: seq<string>, i: nat)
    requires i < |lines| && ReplaceAll(lines[i], "\n", "") != ""
    ensures RootEntry(lines[i]) in RootAdmins(lines)
    decreases i
  {
    if i > 0 {
      RootAdminsKeepsEveryLine(lines[1..], i - 1);
      assert lines[1..][i - 1] == lines[i];
    }
  }

  /** `import_root_user`: each root admin is added as 'root_admin' if the
      username is not already known. */
  function ImportRootUsers(db: Database, roots: seq<string>): (r: Database)
    ensures forall n :: n !in roots ==> FindUser(r, n) == FindUser(db, n)
    ensures forall n :: n in roots ==>
              FindUser(r, n) == (if FindUser(db, n).Some? then FindUser(db, n) else Some(RootAdminRole))
    ensures r.faces == db.faces && r.notes == db.notes && r.models == db.models
    decreases |roots|
  {
    if |roots| == 0 then db
    else ImportRootUsers(AddUser(db, roots[0], RootAdminRole), roots[1..])
  }

  /** A root admin line without '@' is stored as written, but every lookup
      carries '@', so such an entry never grants any role. */
  lemma RootEntryNeedsAt(entry: string, username: string)
    requires '@' !in entry
    ensures Normalise(username) != entry
  {
  }

  // ------------------------------------------------------------ callbacks

  /** `src_type_callback_query_handler(update, context, src_type)` for
      'admin' or 'user': '/<type> x' opens the remove/cancel menu for x,
      '/r<type> x' removes x of that type and relists, '/list<type>'
      relists; anything else is not handled (None). The nested permission
      check of `remove_admin`/`remove_user` always passes here, because
      only a root_admin reaches the 'admin' case and only an admin or
      root_admin reaches the 'user' case. */
  function SrcTypeCallback(db: Database, data: string, kind: Role): (r: (Database, Option<Reply>))
    requires kind != RootAdminRole
    ensures r.1.None? ==> r.0 == db
    ensures forall n :: FindUser(r.0, n) == FindUser(db, n) ||
                        (FindUser(db, n) == Some(kind) && FindUser(r.0, n).None?)
    ensures forall n, m :: FindUser(r.0, n) != FindUser(db, n) && FindUser(r.0, m) != FindUser(db, m) ==> n == m
    ensures r.0.faces == db.faces && r.0.notes == db.notes && r.0.models == db.models
  {
    var name := RoleName(kind);
    match ExtractArgs(name, data)
    case Some(arg) => (db, Some(RemoveMenu(kind, arg)))
    case None =>
      match ExtractArgs("r" + name, data)
      case Some(arg) =>
        var after := RemoveUser(db, arg, kind);
        (after, Some(MemberList(kind, ListUsers(after, kind))))
      case None =>
        if data == "/list" + name then (db, Some(MemberList(kind, ListUsers(db, kind)))) else (db, None)
  }

  /** No '/' after the first character means the marker can only occur at
      the start. */
  lemma MarkerOnlyAtStart(text: string, m: string)
    requires |m| > 0 && m[0] == '/'
    requires forall i :: 0 < i < |text| ==> text[i] != '/'
    requires !OccursAt(text, m, 0)
    ensures !Occurs(text, m)
  {
  }

  /** 'admin' and 'user' contain no '/' and start with neither 'r' nor 'l',
      so no marker of the button handler hides inside another one or inside
      '/list<type>'. */
  lemma RoleNameShape(kind: Role)
    requires kind != RootAdminRole
    ensures |RoleName(kind)| > 0 && RoleName(kind)[0] != 'r' && RoleName(kind)[0] != 'l'
    ensures forall i :: 0 <= i < |RoleName(kind)| ==> RoleName(kind)[i] != '/'
  {
  }

  /** A marker that is not at the start of `prefix + x`, with no '/' later
      in `prefix`, can only occur in `x`. */
  lemma MarkerOnlyInTail(prefix: string, x: string, m: string)
    requires |m| > 0 && m[0] == '/'
    requires forall i :: 0 < i < |prefix| ==> prefix[i] != '/'
    requires !OccursAt(prefix + x, m, 0)
    requires !Occurs(x, m)
    ensures !Occurs(prefix + x, m)
  {
    var t := prefix + x;
    forall p: nat | OccursAt(t, m, p)
      ensures false
    {
      if p >= |prefix| {
        assert x[p - |prefix|..p - |prefix| + |m|] == t[p..p + |m|];
        assert OccursAt(x, m, p - |prefix|);
      }
    }
  }

  /** '/<type> x' opens the remove/cancel menu for x, whatever x is, as long
      as x does not itself hold the marker. */
  lemma MenuRouting(db: Database, x: string, kind: Role)
    requires kind != RootAdminRole
    requires x != "" && !Occurs(x, Marker(RoleName(kind)))
    ensures SrcTypeCallback(db, Marker(RoleName(kind)) + x, kind) == (db, Some(RemoveMenu(kind, x)))
  {
    ExtractArgsOf(RoleName(kind), x);
  }

  /** '/r<type> x' removes exactly the user x of that type and relists the
      type. */
  lemma RemoveRouting(db: Database, x: string, kind: Role)
    requires kind != RootAdminRole
    requires x != "" && !Occurs(x, Marker(RoleName(kind))) && !Occurs(x, Marker("r" + RoleName(kind)))
    ensures var after := RemoveUser(db, x, kind);
      SrcTypeCallback(db, Marker("r" + RoleName(kind)) + x, kind) == (after, Some(MemberList(kind, ListUsers(after, kind))))
  {
    var name := RoleName(kind);
    var prefix := Marker("r" + name);
    RoleNameShape(kind);
    assert forall i :: 0 < i < |prefix| ==> prefix[i] != '/' by {
      assert prefix == "/" + ("r" + name) + " ";
    }
    assert (prefix + x)[1] == 'r' && Marker(name)[1] == name[0];
    MarkerOnlyInTail(prefix, x, Marker(name));
    ExtractArgsSpec(name, prefix + x);
    ExtractArgsOf("r" + name, x);
  }

  /** '/list<type>' relists the type and changes nothing. */
  lemma ListRouting(db: Database, kind: Role)
    requires kind != RootAdminRole
    ensures SrcTypeCallback(db, "/list" + RoleName(kind), kind) == (db, Some(MemberList(kind, ListUsers(db, kind))))
  {
    var name := RoleName(kind);
    var text := "/list" + name;
    RoleNameShape(kind);
    assert text[1] == 'l' && Marker(name)[1] == name[0] && Marker("r" + name)[1] == 'r';
    MarkerOnlyAtStart(text, Marker(name));
    ExtractArgsSpec(name, text);
    MarkerOnlyAtStart(text, Marker("r" + name));
    ExtractArgsSpec("r" + name, text);
  }

  /** Data holding neither marker and not '/list<type>' is left unhandled. */
  lemma OtherRouting(db: Database, data: string, kind: Role)
    requires kind != RootAdminRole
    requires !Occurs(data, Marker(RoleName(kind))) && !Occurs(data, Marker("r" + RoleName(kind)))
    requires data != "/list" + RoleName(kind)
    ensures SrcTypeCallback(db, data, kind) == (db, None)
  {
    ExtractArgsSpec(RoleName(kind), data);
    ExtractArgsSpec("r" + RoleName(kind), data);
  }

  /** The two markers the user side of the button handler splits on. */
  lemma UserMarkers()
    ensures RoleName(UserRole) == "user" && "r" + RoleName(UserRole) == "ruser"
    ensures Marker("user") == "/user " && Marker("ruser") == "/ruser "
    ensures "/list" + RoleName(UserRole) == "/listuser"
  {
  }

  /** '/user x' opens the menu for x. */
  lemma CallbackOpensMenu(db: Database)
    ensures SrcTypeCallback(db, "/user @bob", UserRole) == (db, Some(RemoveMenu(UserRole, "@bob")))
  {
    UserMarkers();
    MarkerOnlyAtStart("@bob", Marker("user"));
    MenuRouting(db, "@bob", UserRole);
    assert Marker("user") + "@bob" == "/user @bob";
  }

  /** '/ruser x' removes the user x and relists the users. */
  lemma CallbackRemoves(db: Database)
    ensures var after := RemoveUser(db, "@bob", UserRole);
      SrcTypeCallback(db, "/ruser @bob", UserRole) == (after, Some(MemberList(UserRole, ListUsers(after, UserRole))))
  {
    UserMarkers();
    MarkerOnlyAtStart("@bob", Marker("user"));
    MarkerOnlyAtStart("@bob", Marker("ruser"));
    RemoveRouting(db, "@bob", UserRole);
    assert Marker("ruser") + "@bob" == "/ruser @bob";
  }

  /** '/listuser' relists the users. */
  lemma CallbackRelists(db: Database)
    ensures SrcTypeCallback(db, "/listuser", UserRole) == (db, Some(MemberList(UserRole, ListUsers(db, UserRole))))
  {
    UserMarkers();
    ListRouting(db, UserRole);
  }

  /** An admin-shaped callback is not handled on the user side. */
  lemma CallbackIgnoresOtherType(db: Database)
    ensures SrcTypeCallback(db, "/admin @bob", UserRole) == (db, None)
  {
    UserMarkers();
    assert "/admin @bob"[1] != 'u' && "/admin @bob"[1] != 'r';
    MarkerOnlyAtStart("/admin @bob", Marker("user"));
    MarkerOnlyAtStart("/admin @bob", Marker("ruser"));
    OtherRouting(db, "/admin @bob", UserRole);
  }

  /** `callback_query_handler`: an admin acts on users; a root_admin tries
      admins first and users only when that was not handled. */
  function CallbackQuery(db: Database, role: Option<Role>, data: string): (r: (Database, Option<Reply>))
  {
    if role == Some(AdminRole) then SrcTypeCallback(db, data, UserRole)
    else if role == Some(RootAdminRole) then
      var first := SrcTypeCallback(db, data, AdminRole);
      if first.1.Some? then first else SrcTypeCallback(first.0, data, UserRole)
    else (db, None)
  }

  /** An admin can only ever remove 'user' entries; a root_admin's callback
      is the admin one when that handles it and the user one otherwise. */
  lemma CallbackQuerySpec(db: Database, role: Option<Role>, data: string)
    ensures role == Some(AdminRole) ==>
              forall n :: FindUser(CallbackQuery(db, role, data).0, n) == FindUser(db, n) ||
                          (FindUser(db, n) == Some(UserRole) && FindUser(CallbackQuery(db, role, data).0, n).None?)
    ensures role == Some(RootAdminRole) ==>
              CallbackQuery(db, role, data) ==
                (if SrcTypeCallback(db, data, AdminRole).1.Some? then SrcTypeCallback(db, data, AdminRole)
                 else SrcTypeCallback(db, data, UserRole))
    ensures role.None? || role == Some(UserRole) ==> CallbackQuery(db, role, data) == (db, None)
  {
  }

  // --------------------------------------------------------- the dispatcher

  /** The updates the bot registers handlers for. `TextMsg` is any other
      text; it reaches the mention handler only when it mentions the bot. */
  datatype Event =
    | StartCmd                 // '/start' and '/help'
    | TrainCmd(text: string)
    | DoneCmd
    | NoteCmd(text: string)
    | RetrainCmd
    | PhotoMsg(download: Download)
    | TextMsg(text: string)
    | ListAdminCmd
    | ListUserCmd
    | AddAdminCmd(text: string)
    | AddUserCmd(text: string)
    | CallbackData(data: string)

  /** An update: its sender, `str(update.message.from_user)`, and what it
      carries. */
  datatype Message = Message(sender: Sender, user: User, event: Event)

  /** The overriding `start_command_handler`: help text by role, without
      touching the sessions. */
  function StartReplies(role: Option<Role>): seq<Reply> {
    match role
    case None => []
    case Some(kind) => [Help(kind)]
  }

  /** The overriding `photo_handler`: a plain user's state is forced to
      'Predict' before routing, so a plain user never trains. */
  function UserPhoto(b: Bot, role: Option<Role>, u: User, download: Download, env: Env): (r: Handled)
    ensures role == Some(UserRole) ==> r == PredictHandler(b.(sessions := b.sessions.(state := b.sessions.state[u := Predict])), download, env)
    ensures role != Some(UserRole) ==> r == PhotoHandler(b, u, download, env)
  {
    var b1 := if role == Some(UserRole) then b.(sessions := b.sessions.(state := b.sessions.state[u := Predict])) else b;
    PhotoHandler(b1, u, download, env)
  }

  /** Runs `handled` when the gate passes; otherwise the bot is unchanged
      and only a registered sender hears 'Permission denied.'. */
  function Guard(b: Bot, d: Decision, handled: Handled): Handled {
    if d.pass then handled else Handled(b, if d.denied then [PermissionDenied] else [])
  }

  /** The handler chain of `TelegramUserClient` for one update, with the
      gate of '/retrain' given by `retrainLevel` (None: no gate). */
  function DispatchWith(b: Bot, public: bool, msg: Message, env: Env, retrainLevel: Option<Role>): Handled {
    var db := b.client.db;
    var role := RoleOf(db, public, msg.sender);
    var u := msg.user;
    match msg.event
    case StartCmd =>
      Guard(b, Gate(db, public, msg.sender, UserRole), Handled(b, StartReplies(role)))
    case TrainCmd(text) =>
      var (s, reply) := TrainCommand(b.sessions, u, text);
      Guard(b, Gate(db, public, msg.sender, AdminRole), Handled(b.(sessions := s), [reply]))
    case DoneCmd =>
      var (s, reply) := DoneCommand(b.sessions, u);
      Guard(b, Gate(db, public, msg.sender, AdminRole), Handled(b.(sessions := s), [reply]))
    case NoteCmd(text) =>
      Guard(b, Gate(db, public, msg.sender, AdminRole), NoteCommand(b, u, text, env.clock.date))
    case RetrainCmd =>
      // The library's command handler takes only message updates, so a
      // channel post never reaches `retrain_command_handler`.
      if msg.sender.Channel? then Handled(b, [])
      else if retrainLevel.None? then RetrainCommand(b, env)
      else Guard(b, Gate(db, public, msg.sender, retrainLevel.value), RetrainCommand(b, env))
    case PhotoMsg(download) =>
      Guard(b, Gate(db, public, msg.sender, UserRole), UserPhoto(b, role, u, download, env))
    case TextMsg(text) =>
      if IndexOf(text, "@" + b.botName).None? then Handled(b, [])
      else Guard(b, Gate(db, public, msg.sender, AdminRole), MentionHandler(b, u, text, env.clock.date))
    case ListAdminCmd =>
      Guard(b, Gate(db, public, msg.sender, RootAdminRole),
            Handled(b, [MemberList(AdminRole, ListUsers(db, AdminRole))]))
    case ListUserCmd =>
      Guard(b, Gate(db, public, msg.sender, AdminRole),
            Handled(b, [MemberList(UserRole, ListUsers(db, UserRole))]))
    case AddAdminCmd(text) =>
      var (db1, reply) := AddMember(db, "addadmin", text, AdminRole);
      Guard(b, Gate(db, public, msg.sender, RootAdminRole),
            Handled(b.(client := b.client.(db := db1)), [reply]))
    case AddUserCmd(text) =>
      var (db1, reply) := AddMember(db, "adduser", text, UserRole);
      Guard(b, Gate(db, public, msg.sender, AdminRole),
            Handled(b.(client := b.client.(db := db1)), [reply]))
    case CallbackData(data) =>
      // A button press carries no `update.message`, so the denial message
      // of `handle_permission` is never sent: a refused press goes unanswered.
      var (db1, reply) := CallbackQuery(db, role, data);
      Guard(b, Gate(db, public, msg.sender, AdminRole).(denied := false),
            Handled(b.(client := b.client.(db := db1)), if reply.Some? then [reply.value] else []))
  }

  /** As written: `retrain_command_handler` is not overridden, so '/retrain'
      runs for anyone, registered or not. */
  function DispatchAsWritten(b: Bot, public: bool, msg: Message, env: Env): Handled {
    DispatchWith(b, public, msg, env, None)
  }

  /** With '/retrain' restricted to root admins, as the help text offers it
      only to them. */
  function Dispatch(b: Bot, public: bool, msg: Message, env: Env): Handled {
    DispatchWith(b, public, msg, env, Some(RootAdminRole))
  }

  /** In a private bot an unregistered sender gets no answer and changes
      nothing, whatever the update. */
  lemma UnregisteredIgnored(b: Bot, msg: Message, env: Env)
    requires RoleOf(b.client.db, false, msg.sender).None?
    ensures Dispatch(b, false, msg, env) == Handled(b, [])
  {
  }

  /** As written, the same sender can make a private bot retrain: on a
      store without faces it answers 'Model extracted and retrained'. */
  lemma RetrainOpenToAnyone(b: Bot, u: User, env: Env)
    requires |b.client.db.faces| == 0
    ensures var msg := Message(Person(None), u, RetrainCmd);
      && DispatchAsWritten(b, false, msg, env).replies == [Retrained]
      && Dispatch(b, false, msg, env) == Handled(b, [])
  {
  }

  /** '/retrain' runs only for a root admin. */
  lemma RetrainOnlyForRoot(b: Bot, public: bool, msg: Message, env: Env)
    requires msg.event.RetrainCmd?
    ensures RoleOf(b.client.db, public, msg.sender) != Some(RootAdminRole) ==>
              Dispatch(b, public, msg, env).bot == b
    ensures RoleOf(b.client.db, public, msg.sender) == Some(RootAdminRole) ==>
              Dispatch(b, public, msg, env).bot.client == Controller.Retrain(b.client, env.redetect, env.clock).client
  {
    DispatchRetrain(b, public, msg, env);
  }

  /** The gated '/retrain' runs the retrain handler behind the root-admin gate. */
  lemma DispatchRetrain(b: Bot, public: bool, msg: Message, env: Env)
    requires msg.event.RetrainCmd?
    ensures Dispatch(b, public, msg, env) ==
      if msg.sender.Channel? then Handled(b, [])
      else Guard(b, Gate(b.client.db, public, msg.sender, RootAdminRole), RetrainCommand(b, env))
  {
  }

  /** A plain user is refused every gated admin command with 'Permission
      denied.' and changes nothing, as written and with '/retrain' gated
      alike. */
  lemma PlainUserDenied(b: Bot, public: bool, msg: Message, env: Env)
    requires RoleOf(b.client.db, public, msg.sender) == Some(UserRole)
    requires msg.event.TrainCmd? || msg.event.DoneCmd? || msg.event.NoteCmd? || msg.event.ListAdminCmd?
             || msg.event.ListUserCmd? || msg.event.AddAdminCmd? || msg.event.AddUserCmd?
    ensures DispatchAsWritten(b, public, msg, env) == Handled(b, [PermissionDenied])
    ensures Dispatch(b, public, msg, env) == Handled(b, [PermissionDenied])
  {
    assert Gate(b.client.db, public, msg.sender, AdminRole) == Decision(false, true);
    assert Gate(b.client.db, public, msg.sender, RootAdminRole) == Decision(false, true);
  }

  /** A plain user's button press is refused without an answer and changes
      nothing. */
  lemma PlainUserCallbackIgnored(b: Bot, public: bool, msg: Message, env: Env)
    requires RoleOf(b.client.db, public, msg.sender) == Some(UserRole)
    requires msg.event.CallbackData?
    ensures DispatchAsWritten(b, public, msg, env) == Handled(b, [])
    ensures Dispatch(b, public, msg, env) == Handled(b, [])
  {
    assert Gate(b.client.db, public, msg.sender, AdminRole) == Decision(false, true);
  }

  /** An admin is refused the root-admin commands, as written and with
      '/retrain' gated alike. */
  lemma AdminDenied(b: Bot, public: bool, msg: Message, env: Env)
    requires RoleOf(b.client.db, public, msg.sender) == Some(AdminRole)
    requires msg.event.ListAdminCmd? || msg.event.AddAdminCmd?
    ensures DispatchAsWritten(b, public, msg, env) == Handled(b, [PermissionDenied])
    ensures Dispatch(b, public, msg, env) == Handled(b, [PermissionDenied])
  {
    assert Gate(b.client.db, public, msg.sender, RootAdminRole) == Decision(false, true);
  }

  /** A photo from a plain user never trains: it stores no face and leaves
      the user in 'Predict'. */
  lemma PlainUserPhotoPredicts(b: Bot, public: bool, msg: Message, env: Env)
    requires RoleOf(b.client.db, public, msg.sender) == Some(UserRole)
    requires msg.event.PhotoMsg?
    ensures Dispatch(b, public, msg, env).bot.client.db.faces == b.client.db.faces
    ensures StateOf(Dispatch(b, public, msg, env).bot.sessions, msg.user) == Predict
    ensures DispatchAsWritten(b, public, msg, env) == Dispatch(b, public, msg, env)
  {
    var b1 := b.(sessions := b.sessions.(state := b.sessions.state[msg.user := Predict]));
    PhotoRouting(b1, msg.user, msg.event.download, env);
  }

  /** Every update keeps the sessions consistent, with '/retrain' gated
      or as written. */
  lemma DispatchKeepsConsistent(b: Bot, public: bool, msg: Message, env: Env)
    requires Consistent(b.sessions)
    ensures Consistent(Dispatch(b, public, msg, env).bot.sessions)
    ensures Consistent(DispatchAsWritten(b, public, msg, env).bot.sessions)
  {
    DispatchWithKeepsConsistent(b, public, msg, env, Some(RootAdminRole));
    DispatchWithKeepsConsistent(b, public, msg, env, None);
  }

  /** The same, whatever gate '/retrain' has. */
  lemma DispatchWithKeepsConsistent(b: Bot, public: bool, msg: Message, env: Env, level: Option<Role>)
    requires Consistent(b.sessions)
    ensures Consistent(DispatchWith(b, public, msg, env, level).bot.sessions)
  {
    match msg.event
    case TrainCmd(_) => DispatchTrainKeepsConsistent(b, public, msg, env, level);
    case DoneCmd => DispatchTrainKeepsConsistent(b, public, msg, env, level);
    case NoteCmd(_) =>
      HandlersKeepConsistent(b, msg.user, msg.event.text, env.clock.date);
      DispatchNoteSessions(b, public, msg, env, level);
    case TextMsg(_) =>
      HandlersKeepConsistent(b, msg.user, msg.event.text, env.clock.date);
      DispatchTextSessions(b, public, msg, env, level);
    case PhotoMsg(_) => DispatchPhotoKeepsConsistent(b, public, msg, env, level);
    case _ => DispatchKeepsSessions(b, public, msg, env, level);
  }

  /** '/train' and '/done' move a user into and out of the conversation. */
  lemma DispatchTrainKeepsConsistent(b: Bot, public: bool, msg: Message, env: Env, level: Option<Role>)
    requires Consistent(b.sessions)
    requires msg.event.TrainCmd? || msg.event.DoneCmd?
    ensures Consistent(DispatchWith(b, public, msg, env, level).bot.sessions)
  {
    var text := if msg.event.DoneCmd? then "" else msg.event.text;
    HandlersKeepConsistent(b, msg.user, text, env.clock.date);
  }

  /** The sessions after '/note': unchanged, or those of `NoteCommand`. */
  lemma DispatchNoteSessions(b: Bot, public: bool, msg: Message, env: Env, level: Option<Role>)
    requires msg.event.NoteCmd?
    ensures var s := DispatchWith(b, public, msg, env, level).bot.sessions;
      s == b.sessions || s == NoteCommand(b, msg.user, msg.event.text, env.clock.date).bot.sessions
  {
  }

  /** The sessions after a text: unchanged, or those of `MentionHandler`. */
  lemma DispatchTextSessions(b: Bot, public: bool, msg: Message, env: Env, level: Option<Role>)
    requires msg.event.TextMsg?
    ensures var s := DispatchWith(b, public, msg, env, level).bot.sessions;
      s == b.sessions || s == MentionHandler(b, msg.user, msg.event.text, env.clock.date).bot.sessions
  {
  }

  /** A photo at most sets its sender back to 'Predict'. */
  lemma DispatchPhotoKeepsConsistent(b: Bot, public: bool, msg: Message, env: Env, level: Option<Role>)
    requires Consistent(b.sessions)
    requires msg.event.PhotoMsg?
    ensures Consistent(DispatchWith(b, public, msg, env, level).bot.sessions)
  {
    var s := b.sessions.(state := b.sessions.state[msg.user := Predict]);
    forall v | StateOf(s, v) == Train || StateOf(s, v) == Note
      ensures TagOf(s, v) != ""
    {
      assert v != msg.user;
      assert StateOf(b.sessions, v) == StateOf(s, v);
    }
  }

  /** The updates that do not touch the conversation state. */
  lemma DispatchKeepsSessions(b: Bot, public: bool, msg: Message, env: Env, level: Option<Role>)
    requires msg.event.StartCmd? || msg.event.ListAdminCmd? || msg.event.ListUserCmd? ||
             msg.event.AddAdminCmd? || msg.event.AddUserCmd? || msg.event.CallbackData? ||
             msg.event.RetrainCmd?
    ensures DispatchWith(b, public, msg, env, level).bot.sessions == b.sessions
  {
  }
}
