/** The validators of app/durable-objects/ChatRoom/schemas.ts, which the
    room applies to each inbound frame and to the attachments of restored
    sockets. zod's `z.object` accepts any object whose listed members have
    the listed types, drops unlisted members, and treats an absent member
    as `undefined`, which `.optional()` admits. The room only ever reports a
    failure as "Validation failed", so a rejection here carries no detail. */
module RoomSchemas {
  import opened Base

  const MAX_MESSAGE_LENGTH := 256
  const MAX_NAME_LENGTH := 32

  /** The object `chatMessageSchema` returns: every member optional. */
  datatype FrameData = FrameData(
    name: Option<string>,
    message: Option<string>,
    timestamp: Option<real>,
    joined: Option<string>,
    quit: Option<string>,
    error: Option<string>,
    ready: Option<bool>)

  /** `z.string().optional()`, with `.max(limit)` when a limit is given.
      `Err` is a rejection, `Ok(None)` an absent member. */
  function OptionalString(v: Option<Json>, limit: Option<nat>): (r: Result<Option<string>, ()>)
    ensures r.Ok? <==> v.None? || (v.value.JStr? && (limit.None? || |v.value.s| <= limit.value))
    ensures r.Ok? ==> r.value == if v.None? then None else Some(v.value.s)
  {
    match v
    case None => Ok(None)
    case Some(JStr(s)) => if limit.Some? && |s| > limit.value then Err(()) else Ok(Some(s))
    case Some(_) => Err(())
  }

  /** `z.number().optional()` */
  function OptionalNumber(v: Option<Json>): (r: Result<Option<real>, ()>)
    ensures r.Ok? <==> v.None? || v.value.JNum?
    ensures r.Ok? ==> r.value == if v.None? then None else Some(v.value.n)
  {
    match v
    case None => Ok(None)
    case Some(JNum(n)) => Ok(Some(n))
    case Some(_) => Err(())
  }

  /** `z.boolean().optional()` */
  function OptionalBoolean(v: Option<Json>): (r: Result<Option<bool>, ()>)
    ensures r.Ok? <==> v.None? || v.value.JBool?
    ensures r.Ok? ==> r.value == if v.None? then None else Some(v.value.b)
  {
    match v
    case None => Ok(None)
    case Some(JBool(b)) => Ok(Some(b))
    case Some(_) => Err(())
  }

  const FRAME_KEYS: set<string> := {"name", "message", "timestamp", "joined", "quit", "error", "ready"}

  /** The JSON value of member `key` of a parsed frame, if present. */
  function MemberValue(d: FrameData, key: string): Option<Json> {
    if key == "name" then (if d.name.Some? then Some(JStr(d.name.value)) else None)
    else if key == "message" then (if d.message.Some? then Some(JStr(d.message.value)) else None)
    else if key == "timestamp" then (if d.timestamp.Some? then Some(JNum(d.timestamp.value)) else None)
    else if key == "joined" then (if d.joined.Some? then Some(JStr(d.joined.value)) else None)
    else if key == "quit" then (if d.quit.Some? then Some(JStr(d.quit.value)) else None)
    else if key == "error" then (if d.error.Some? then Some(JStr(d.error.value)) else None)
    else if key == "ready" then (if d.ready.Some? then Some(JBool(d.ready.value)) else None)
    else None
  }

  /** `chatMessageSchema` (app/durable-objects/ChatRoom/schemas.ts:3-11):
      accepts exactly an object whose seven listed members are each absent
      or of the listed type, with a message of at most 256 characters, and
      yields those members as they were. */
  function ParseChatMessage(j: Json): (r: Option<FrameData>)
    ensures r.Some? <==>
      && j.JObj?
      && (Member(j.fields, "name").None? || j.fields["name"].JStr?)
      && (Member(j.fields, "message").None?
          || (j.fields["message"].JStr? && |j.fields["message"].s| <= MAX_MESSAGE_LENGTH))
      && (Member(j.fields, "timestamp").None? || j.fields["timestamp"].JNum?)
      && (Member(j.fields, "joined").None? || j.fields["joined"].JStr?)
      && (Member(j.fields, "quit").None? || j.fields["quit"].JStr?)
      && (Member(j.fields, "error").None? || j.fields["error"].JStr?)
      && (Member(j.fields, "ready").None? || j.fields["ready"].JBool?)
    ensures r.Some? ==> j.JObj?
    ensures r.Some? && r.value.message.Some? ==> |r.value.message.value| <= MAX_MESSAGE_LENGTH
    ensures (j.JObj? && "message" in j.fields && j.fields["message"].JStr?
      && |j.fields["message"].s| > MAX_MESSAGE_LENGTH) ==> r.None?
    ensures j.JObj? && "timestamp" in j.fields && !j.fields["timestamp"].JNum? ==> r.None?
    ensures j.JObj? && "ready" in j.fields && !j.fields["ready"].JBool? ==> r.None?
    ensures r.Some? && r.value.message.Some? ==> Member(j.fields, "message") == Some(JStr(r.value.message.value))
  {
    match j
    case JObj(f) =>
      var name := OptionalString(Member(f, "name"), None);
      var message := OptionalString(Member(f, "message"), Some(MAX_MESSAGE_LENGTH));
      var timestamp := OptionalNumber(Member(f, "timestamp"));
      var joined := OptionalString(Member(f, "joined"), None);
      var quit := OptionalString(Member(f, "quit"), None);
      var error := OptionalString(Member(f, "error"), None);
      var ready := OptionalBoolean(Member(f, "ready"));
      if name.Ok? && message.Ok? && timestamp.Ok? && joined.Ok? && quit.Ok? && error.Ok? && ready.Ok? then
        Some(FrameData(name.value, message.value, timestamp.value, joined.value, quit.value, error.value, ready.value))
      else None
    case _ => None
  }

  /** An accepted frame carries every listed member exactly as the object
      had it: present with the same value, or absent. */
  lemma ParsedMembers(j: Json)
    requires ParseChatMessage(j).Some?
    ensures forall key :: key in FRAME_KEYS ==> MemberValue(ParseChatMessage(j).value, key) == Member(j.fields, key)
  {
    var d := ParseChatMessage(j).value;
    assert MemberValue(d, "name") == Member(j.fields, "name");
    assert MemberValue(d, "message") == Member(j.fields, "message");
    assert MemberValue(d, "timestamp") == Member(j.fields, "timestamp");
    assert MemberValue(d, "joined") == Member(j.fields, "joined");
    assert MemberValue(d, "quit") == Member(j.fields, "quit");
    assert MemberValue(d, "error") == Member(j.fields, "error");
    assert MemberValue(d, "ready") == Member(j.fields, "ready");
  }

  /** The object a parsed frame is, as the next schema sees it: the members
      that were present, with their values. */
  function DataToJson(d: FrameData): (j: Json)
    ensures j.JObj? && forall key :: Member(j.fields, key) == MemberValue(d, key)
  {
    JObj(map key | key in FRAME_KEYS && MemberValue(d, key).Some? :: MemberValue(d, key).value)
  }

  /** Every member is optional: the empty object is a valid frame. */
  lemma EmptyFrameAccepted()
    ensures ParseChatMessage(JObj(map[])) == Some(FrameData(None, None, None, None, None, None, None))
  {
  }

  /** A frame is accepted exactly when its object form is (a round trip):
      parsing the object of any frame whose message fits gives that frame
      back, and a frame whose message is too long has no valid form. */
  lemma {:induction false} ChatMessageRoundTrip(d: FrameData)
    ensures ParseChatMessage(DataToJson(d)) ==
      if d.message.Some? && |d.message.value| > MAX_MESSAGE_LENGTH then None else Some(d)
  {
    var f := DataToJson(d).fields;
    assert Member(f, "name") == MemberValue(d, "name");
    assert Member(f, "message") == MemberValue(d, "message");
    assert Member(f, "timestamp") == MemberValue(d, "timestamp");
    assert Member(f, "joined") == MemberValue(d, "joined");
    assert Member(f, "quit") == MemberValue(d, "quit");
    assert Member(f, "error") == MemberValue(d, "error");
    assert Member(f, "ready") == MemberValue(d, "ready");
  }

  /** Members the schema does not list never matter. */
  lemma UnlistedMembersIgnored(f: map<string, Json>, key: string, v: Json)
    requires key !in FRAME_KEYS
    ensures ParseChatMessage(JObj(f[key := v])) == ParseChatMessage(JObj(f))
  {
    var g := f[key := v];
    assert Member(g, "name") == Member(f, "name");
    assert Member(g, "message") == Member(f, "message");
    assert Member(g, "timestamp") == Member(f, "timestamp");
    assert Member(g, "joined") == Member(f, "joined");
    assert Member(g, "quit") == Member(f, "quit");
    assert Member(g, "error") == Member(f, "error");
    assert Member(g, "ready") == Member(f, "ready");
  }

  datatype UserInfo = UserInfo(name: Option<string>)

  /** `userInfoSchema` (app/durable-objects/ChatRoom/schemas.ts:13-15). */
  function ParseUserInfo(j: Json): (r: Option<UserInfo>)
    ensures r.Some? <==> j.JObj? && OptionalString(Member(j.fields, "name"), Some(MAX_NAME_LENGTH)).Ok?
    ensures r.Some? && r.value.name.Some? ==> |r.value.name.value| <= MAX_NAME_LENGTH
  {
    match j
    case JObj(f) =>
      (match OptionalString(Member(f, "name"), Some(MAX_NAME_LENGTH))
       case Ok(n) => Some(UserInfo(n))
       case Err(_) => None)
    case _ => None
  }

  /** On an already parsed frame, `userInfoSchema` accepts exactly when the
      name is absent or at most 32 characters, and keeps the name. */
  lemma UserInfoOfFrame(d: FrameData)
    ensures ParseUserInfo(DataToJson(d)) ==
      if d.name.Some? && |d.name.value| > MAX_NAME_LENGTH then None else Some(UserInfo(d.name))
  {
    assert Member(DataToJson(d).fields, "name") == MemberValue(d, "name");
  }

  /** The shape `sessionDataSchema` accepts. `limiter` is `z.any()`, so it
      is not recorded. */
  datatype SessionShape = SessionShape(
    limiterId: string,
    blockedMessages: Option<seq<string>>,
    name: Option<string>,
    quit: Option<bool>)

  /** `z.array(z.string())` */
  predicate AllStrings(items: seq<Json>) {
    forall i :: 0 <= i < |items| ==> items[i].JStr?
  }

  function Strings(items: seq<Json>): (r: seq<string>)
    requires AllStrings(items)
    ensures |r| == |items| && forall i :: 0 <= i < |r| ==> items[i] == JStr(r[i])
  {
    if items == [] then [] else [items[0].s] + Strings(items[1..])
  }

  /** `sessionDataSchema` (app/durable-objects/ChatRoom/schemas.ts:17-23). */
  function ParseSessionData(j: Json): (r: Option<SessionShape>)
    ensures r.Some? <==>
      && j.JObj?
      && Member(j.fields, "limiterId").Some? && j.fields["limiterId"].JStr?
      && (Member(j.fields, "blockedMessages").None?
          || (j.fields["blockedMessages"].JArr? && AllStrings(j.fields["blockedMessages"].items)))
      && (Member(j.fields, "name").None?
          || (j.fields["name"].JStr? && |j.fields["name"].s| <= MAX_NAME_LENGTH))
      && (Member(j.fields, "quit").None? || j.fields["quit"].JBool?)
    ensures r.Some? ==> r.value.limiterId == j.fields["limiterId"].s
    ensures r.Some? ==>
      r.value.blockedMessages ==
        if Member(j.fields, "blockedMessages").None? then None
        else Some(Strings(j.fields["blockedMessages"].items))
    ensures r.Some? ==> r.value.name == (if Member(j.fields, "name").None? then None else Some(j.fields["name"].s))
    ensures r.Some? ==> r.value.quit == (if Member(j.fields, "quit").None? then None else Some(j.fields["quit"].b))
  {
    match j
    case JObj(f) =>
      var blocked: Result<Option<seq<string>>, ()> :=
        match Member(f, "blockedMessages")
        case None => Ok(None)
        case Some(JArr(items)) => if AllStrings(items) then Ok(Some(Strings(items))) else Err(())
        case Some(_) => Err(());
      var name := OptionalString(Member(f, "name"), Some(MAX_NAME_LENGTH));
      var quit := OptionalBoolean(Member(f, "quit"));
      (match Member(f, "limiterId")
       case Some(JStr(id)) =>
         if blocked.Ok? && name.Ok? && quit.Ok? then Some(SessionShape(id, blocked.value, name.value, quit.value))
         else None
       case _ => None)
    case _ => None
  }

  /** What a hibernated socket carries. */
  datatype Attachment = Attachment(limiterId: string, name: Option<string>)

  /** `webSocketAttachmentSchema` (app/durable-objects/ChatRoom/schemas.ts:25-28). */
  function ParseAttachment(j: Json): (r: Option<Attachment>)
    ensures r.Some? <==>
      && j.JObj?
      && Member(j.fields, "limiterId").Some? && j.fields["limiterId"].JStr?
      && (Member(j.fields, "name").None? || j.fields["name"].JStr?)
    ensures r.Some? ==> r.value.limiterId == j.fields["limiterId"].s
  {
    match j
    case JObj(f) =>
      (match Member(f, "limiterId")
       case Some(JStr(id)) =>
         (match OptionalString(Member(f, "name"), None)
          case Ok(n) => Some(Attachment(id, n))
          case Err(_) => None)
       case _ => None)
    case _ => None
  }
}
