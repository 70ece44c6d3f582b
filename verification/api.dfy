/** The script object of api.go: its configuration, the inbound messages the
    loop can meet, and the three envelopes the script writes to the host.

    Each envelope has a reader beside it: the view a host takes of one output
    line. A shape lemma per envelope pins the builder to its reader in both
    directions: the reader recovers the builder's fields and accepts no other
    line, so every envelope is determined by the fields it carries. */
module Api {
  import opened Wrappers
  import opened Json

  /** One script (api.go:17-24). It answers exactly one command name; the
      help lines are never read by the code modelled here. */
  datatype Script = Script(name: string, prefix: string, perm: string, opBypass: bool)

  /** The script New returns (api.go:44): every field at its zero value */
  const New: Script := Script("", "", "", false)

  /** What a handler is given: the invoking player and the arguments */
  datatype C = C(player: string, args: seq<string>)

  /** A handler's return: a nil error or an error value */
  datatype HandlerResult = Success | Failure(err: string)

  /** The script author's callback; its body is not part of the model */
  type Handler = C -> HandlerResult

  /** One inbound line as the loop classifies it. `Other` stands for every
      message type other than `command` and `permission_result` (see Route).
      Decoding `data` keeps the fields that decoded and leaves the zero
      value (an empty string, no arguments, `false`) in each of the rest. */
  datatype Inbound =
    | Malformed
    | Command(name: string, player: string, args: seq<string>)
    | PermResult(hasPermission: bool)
    | Other(tag: string)

  /** Only types other than the two the loop handles are carried as Other */
  predicate Classified(m: Inbound) {
    m.Other? ==> m.tag != "command" && m.tag != "permission_result"
  }

  /** The switch on a decoded line's type (api.go:83-106): the fields of a
      `command` or of a `permission_result`, or Other for any other type */
  function Route(typ: string, name: string, player: string, args: seq<string>, hasPermission: bool): (m: Inbound)
    ensures Classified(m) && !m.Malformed?
    ensures m.Command? <==> typ == "command"
    ensures m.PermResult? <==> typ == "permission_result"
    ensures m.Other? ==> m.tag == typ
    ensures m.Command? ==> m == Command(name, player, args)
    ensures m.PermResult? ==> m == PermResult(hasPermission)
  {
    if typ == "command" then Command(name, player, args)
    else if typ == "permission_result" then PermResult(hasPermission)
    else Other(typ)
  }

  /** The payload of a permission check (api.go:31-35) */
  datatype PermReq = PermReq(player: string, permission: string, opBypass: bool)

  /** A chat line addressed to one player */
  datatype Chat = Chat(player: string, message: string)

  /** The denial text, character for character as the source spells it: a doubly
      encoded section sign before the colour code `c`. */
  const NoPermission: string := "\U{C2}\U{A7}cNo permission."

  /** The fixed decoration around a script's prefix in chat lines */
  const StyleHead: string := "<color:#F5C527>"
  const StyleSep: string := " <dark_gray>> <gray>"

  /** Every line written is an object with exactly a `type` and a `data` */
  function Envelope(typ: string, data: map<string, Json>): Json {
    JObj(map["type" := JStr(typ), "data" := JObj(data)])
  }

  /** The data of `e` when `e` is exactly an envelope of type `typ` whose data
      object has exactly the keys `keys` */
  function Payload(e: Json, typ: string, keys: set<string>): (r: Option<map<string, Json>>)
    ensures r.Some? ==> r.value.Keys == keys && e == Envelope(typ, r.value)
  {
    if e.JObj? && e.fields.Keys == {"type", "data"} && e.fields["type"] == JStr(typ)
       && e.fields["data"].JObj? && e.fields["data"].fields.Keys == keys
    then
      var d := e.fields["data"].fields;
      assert e.fields == map["type" := JStr(typ), "data" := JObj(d)];
      Some(d)
    else None
  }

  // ---------------------------------------------------------------------
  // register_command (api.go:46-54)
  // ---------------------------------------------------------------------

  /** The host's view of a `register_command` line: the announced name */
  function AnnouncedCommand(e: Json): Option<string> {
    match Payload(e, "register_command", {"command"})
    case None => None
    case Some(d) => StrField(JObj(d), "command")
  }

  /** The one envelope that announces the script's command to the host */
  function RegisterCommand(s: Script): (e: Json)
    ensures AnnouncedCommand(e) == Some(s.name)
    ensures PermissionQuery(e).None? && PlayerMessage(e).None?
  {
    Envelope("register_command", map["command" := JStr(s.name)])
  }

  /** A line announces the script's name exactly when it is the script's
      registration envelope */
  lemma AnnouncementShape(e: Json, s: Script)
    ensures AnnouncedCommand(e) == Some(s.name) <==> e == RegisterCommand(s)
  {
    if AnnouncedCommand(e) == Some(s.name) {
      var d := Payload(e, "register_command", {"command"}).value;
      assert d == map["command" := JStr(s.name)];
    }
  }

  // ---------------------------------------------------------------------
  // check_permission and the answer slot (api.go:56-63)
  // ---------------------------------------------------------------------

  /** The host's view of a `check_permission` line */
  function PermissionQuery(e: Json): Option<PermReq> {
    match Payload(e, "check_permission", {"player", "permission", "op_bypass"})
    case None => None
    case Some(d) =>
      var j := JObj(d);
      if StrField(j, "player").Some? && StrField(j, "permission").Some? && BoolField(j, "op_bypass").Some?
      then Some(PermReq(StrField(j, "player").value, StrField(j, "permission").value, BoolField(j, "op_bypass").value))
      else None
  }

  /** The request HasPermission writes for `player`; the shape lemma below
      states what a host reads from it */
  function CheckPermission(s: Script, player: string): Json
  {
    Envelope("check_permission",
      map["player" := JStr(player), "permission" := JStr(s.perm), "op_bypass" := JBool(s.opBypass)])
  }

  /** A line asks about (player, s.perm, s.opBypass) exactly when it is the
      script's check envelope for that player */
  lemma QueryShape(e: Json, s: Script, player: string)
    ensures PermissionQuery(e) == Some(PermReq(player, s.perm, s.opBypass)) <==> e == CheckPermission(s, player)
  {
    if PermissionQuery(e) == Some(PermReq(player, s.perm, s.opBypass)) {
      var d := Payload(e, "check_permission", {"player", "permission", "op_bypass"}).value;
      assert d == map["player" := JStr(player), "permission" := JStr(s.perm), "op_bypass" := JBool(s.opBypass)];
    }
  }

  /** One call of HasPermission: the request it writes, and the answer it
      receives from the one-slot buffer. `answer == None` means the receive
      blocks; after a receive that returns, the slot is empty again. */
  datatype Ask = Ask(request: Json, answer: Option<bool>)

  function HasPermission(s: Script, player: string, slot: Option<bool>): (a: Ask)
    ensures PermissionQuery(a.request) == Some(PermReq(player, s.perm, s.opBypass))
    ensures a.answer.Some? <==> slot.Some?
    ensures a.answer.Some? ==> a.answer.value == slot.value
  {
    Ask(CheckPermission(s, player), slot)
  }

  // ---------------------------------------------------------------------
  // send_message (api.go:65-75)
  // ---------------------------------------------------------------------

  /** The text after the decoration for `prefix`, if `m` carries it */
  function Unstyle(prefix: string, m: string): Option<string> {
    var head := StyleHead + prefix + StyleSep;
    if |head| <= |m| && m[..|head|] == head then Some(m[|head|..]) else None
  }

  /** The chat text a script's prefix decorates */
  function Styled(prefix: string, text: string): string {
    StyleHead + prefix + StyleSep + text
  }

  /** Undecorating recovers `text` exactly when `m` is the decorated `text` */
  lemma StyledShape(prefix: string, m: string, text: string)
    ensures Unstyle(prefix, m) == Some(text) <==> m == Styled(prefix, text)
  {
  }

  /** Two chat lines of one script carry the same text exactly when they are
      equal */
  lemma StyledInjective(prefix: string, t1: string, t2: string)
    ensures Styled(prefix, t1) == Styled(prefix, t2) <==> t1 == t2
  {
    if Styled(prefix, t1) == Styled(prefix, t2) {
      assert Unstyle(prefix, Styled(prefix, t1)) == Some(t1);
    }
  }

  /** The host's view of a `player_action` line with action `send_message`;
      `action` and `player` sit inside `data` */
  function PlayerMessage(e: Json): Option<Chat> {
    match Payload(e, "player_action", {"action", "player", "message"})
    case None => None
    case Some(d) =>
      var j := JObj(d);
      if StrField(j, "action") == Some("send_message") && StrField(j, "player").Some? && StrField(j, "message").Some?
      then Some(Chat(StrField(j, "player").value, StrField(j, "message").value))
      else None
  }

  /** The chat line SendMessage writes; the shape lemma below states what a
      host reads from it */
  function SendMessage(s: Script, to: string, text: string): Json
  {
    Envelope("player_action",
      map["action" := JStr("send_message"), "player" := JStr(to), "message" := JStr(Styled(s.prefix, text))])
  }

  /** A line is a chat line from the script to `to` with `text` exactly when
      it is SendMessage's envelope */
  lemma ChatShape(e: Json, s: Script, to: string, text: string)
    ensures PlayerMessage(e) == Some(Chat(to, Styled(s.prefix, text))) <==> e == SendMessage(s, to, text)
  {
    if PlayerMessage(e) == Some(Chat(to, Styled(s.prefix, text))) {
      var d := Payload(e, "player_action", {"action", "player", "message"}).value;
      assert d == map["action" := JStr("send_message"), "player" := JStr(to), "message" := JStr(Styled(s.prefix, text))];
    }
  }

  /** No line is read as two kinds of envelope: the host can tell an
      announcement, a permission check and a chat line apart */
  lemma EnvelopeKindsDisjoint(e: Json)
    ensures AnnouncedCommand(e).Some? ==> PermissionQuery(e).None? && PlayerMessage(e).None?
    ensures PermissionQuery(e).Some? ==> PlayerMessage(e).None?
  {
  }
}
