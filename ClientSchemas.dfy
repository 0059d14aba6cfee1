/** The validators of app/schemas/chat.ts, which the browser applies to
    user input and to the frames it receives. Each zod schema becomes a
    parser from a JSON value (or from an absent object member) to either the
    parsed value or the list of issues zod reports. The messages the source
    spells out are kept as `Custom` issues; zod's own issues are named by
    kind. */
module ClientSchemas {
  import opened Base
  import RoomFrames

  datatype Issue =
    | Custom(message: string)       // a message written in the schema
    | Required                      // a required member is absent
    | WrongType(expected: string)   // e.g. a number where a string belongs
    | NotInteger                    // `.int()`
    | NotPositive                   // `.positive()`
    | WrongLiteral                  // `z.literal(...)`
    | BadDiscriminator              // `type` names no variant
    | NoUnionMatch                  // no branch of `z.union` accepts

  /** `[a-zA-Z0-9_-]` */
  predicate IsNameChar(c: char) {
    ('a' <= c <= 'z') || ('A' <= c <= 'Z') || ('0' <= c <= '9') || c == '_' || c == '-'
  }

  /** `[0-9a-f]` */
  predicate IsLowerHexChar(c: char) {
    ('0' <= c <= '9') || ('a' <= c <= 'f')
  }

  /** `/^[a-zA-Z0-9_-]+$/` */
  predicate MatchesNamePattern(s: string) {
    |s| >= 1 && forall i :: 0 <= i < |s| ==> IsNameChar(s[i])
  }

  /** What a username is: at most 32 characters matching the pattern, so
      1 to 32 letters, digits, underscores or hyphens. */
  predicate IsUsername(s: string) {
    |s| <= 32 && MatchesNamePattern(s)
  }

  /** `z.string()` */
  function ParseString(v: Option<Json>): (r: Result<string, seq<Issue>>)
    ensures r.Ok? <==> v.Some? && v.value.JStr?
    ensures r.Ok? ==> r.value == v.value.s
    ensures r.Err? ==> r.error != []
  {
    match v
    case None => Err([Required])
    case Some(JStr(s)) => Ok(s)
    case Some(_) => Err([WrongType("string")])
  }

  /** zod runs every check of a string schema and reports each failure. */
  function UsernameIssues(s: string): seq<Issue> {
    (if |s| < 1 then [Custom("Username is required")] else [])
    + (if |s| > 32 then [Custom("Username must be 32 characters or less")] else [])
    + (if !MatchesNamePattern(s) then [Custom("Username can only contain letters, numbers, underscores, and hyphens")] else [])
  }

  /** `usernameSchema` (app/schemas/chat.ts:4-8). */
  function ParseUsername(v: Option<Json>): (r: Result<string, seq<Issue>>)
    ensures r.Ok? <==> v.Some? && v.value.JStr? && IsUsername(v.value.s)
    ensures r.Ok? ==> r.value == v.value.s
    ensures r.Err? ==> r.error != []
  {
    match ParseString(v)
    case Err(e) => Err(e)
    case Ok(s) => var issues := UsernameIssues(s); if issues == [] then Ok(s) else Err(issues)
  }

  /** The characters `String.prototype.trim` removes: ECMAScript
      WhiteSpace and LineTerminator. */
  predicate IsJsWhitespace(c: char) {
    c == '\U{9}' || c == '\U{A}' || c == '\U{B}' || c == '\U{C}' || c == '\U{D}'
    || c == '\U{20}' || c == '\U{A0}' || c == '\U{1680}' || ('\U{2000}' <= c <= '\U{200A}')
    || c == '\U{2028}' || c == '\U{2029}' || c == '\U{202F}' || c == '\U{205F}' || c == '\U{3000}'
    || c == '\U{FEFF}'
  }

  /** The index of the first non-whitespace character of `s` at or after `i`
      (`|s|` when there is none). */
  function SkipBlanks(s: string, i: nat): (n: nat)
    requires i <= |s|
    ensures i <= n <= |s|
    ensures forall k :: i <= k < n ==> IsJsWhitespace(s[k])
    ensures n < |s| ==> !IsJsWhitespace(s[n])
    decreases |s| - i
  {
    if i < |s| && IsJsWhitespace(s[i]) then SkipBlanks(s, i + 1) else i
  }

  /** The end of `s[lo..j]` once its trailing whitespace is dropped. */
  function SkipTrailingBlanks(s: string, lo: nat, j: nat): (n: nat)
    requires lo <= j <= |s|
    ensures lo <= n <= j
    ensures forall k :: n <= k < j ==> IsJsWhitespace(s[k])
    ensures n > lo ==> !IsJsWhitespace(s[n - 1])
  {
    if lo < j && IsJsWhitespace(s[j - 1]) then SkipTrailingBlanks(s, lo, j - 1) else j
  }

  /** `String.prototype.trim`: the leading and then the trailing
      whitespace stripped. The result is a contiguous piece of `s`,
      everything cut away is whitespace, and it neither starts nor ends
      with whitespace. */
  function Trim(s: string): (r: string)
    ensures var i := SkipBlanks(s, 0);
      && i + |r| <= |s| && r == s[i..i + |r|]
      && (forall k :: 0 <= k < i ==> IsJsWhitespace(s[k]))
      && (forall k :: i + |r| <= k < |s| ==> IsJsWhitespace(s[k]))
      && (r != [] ==> !IsJsWhitespace(r[0]) && !IsJsWhitespace(r[|r| - 1]))
  {
    var i := SkipBlanks(s, 0);
    s[i..SkipTrailingBlanks(s, i, |s|)]
  }

  function ContentIssues(s: string): seq<Issue> {
    (if |s| < 1 then [Custom("Message cannot be empty")] else [])
    + (if |s| > 256 then [Custom("Message must be 256 characters or less")] else [])
  }

  /** `messageContentSchema` (app/schemas/chat.ts:10-14): the length is
      checked on the raw string and only an accepted string is trimmed. */
  function ParseMessageContent(v: Option<Json>): (r: Result<string, seq<Issue>>)
    ensures r.Ok? <==> v.Some? && v.value.JStr? && 1 <= |v.value.s| <= 256
    ensures r.Ok? ==> r.value == Trim(v.value.s)
    ensures r.Err? ==> r.error != []
  {
    match ParseString(v)
    case Err(e) => Err(e)
    case Ok(s) => var issues := ContentIssues(s); if issues == [] then Ok(Trim(s)) else Err(issues)
  }

  /** A message of blanks passes the length check and trims to nothing. */
  lemma BlankMessageBecomesEmpty(s: string)
    requires 1 <= |s| <= 256 && forall i :: 0 <= i < |s| ==> IsJsWhitespace(s[i])
    ensures ParseMessageContent(Some(JStr(s))) == Ok("")
  {
  }

  /** `z.number().int().positive()`: both checks run. */
  function ParsePositiveInteger(v: Option<Json>): (r: Result<int, seq<Issue>>)
    ensures r.Ok? <==> v.Some? && v.value.JNum? && IsInteger(v.value.n) && v.value.n > 0.0
    ensures r.Ok? ==> r.value as real == v.value.n && r.value >= 1
    ensures r.Err? ==> r.error != []
  {
    match v
    case None => Err([Required])
    case Some(JNum(n)) =>
      var issues := (if IsInteger(n) then [] else [NotInteger]) + (if n > 0.0 then [] else [NotPositive]);
      if issues == [] then Ok(n.Floor) else Err(issues)
    case Some(_) => Err([WrongType("number")])
  }

  /** `timestampSchema` (app/schemas/chat.ts:16-20): an absent value is
      replaced by `Date.now()` (here `now`), and the default is validated
      like a supplied value. */
  function ParseTimestamp(v: Option<Json>, now: int): (r: Result<int, seq<Issue>>)
    ensures v.None? ==> (r.Ok? <==> now >= 1) && (r.Ok? ==> r.value == now)
    ensures v.Some? ==> r == ParsePositiveInteger(v)
  {
    match v
    case None => ParsePositiveInteger(Some(JNum(now as real)))
    case Some(_) => ParsePositiveInteger(v)
  }

  /** A chat message as the client holds it. */
  datatype ChatMessage = ChatMessage(name: string, message: string, timestamp: int)

  /** Issues of one object member, or none. */
  function IssuesOf<T>(r: Result<T, seq<Issue>>): seq<Issue> {
    if r.Err? then r.error else []
  }

  /** `chatMessageSchema` (app/schemas/chat.ts:23-27). Unknown members are
      dropped; the issues of all members are collected. */
  function ParseChatMessage(j: Json): (r: Result<ChatMessage, seq<Issue>>)
    ensures r.Ok? <==>
      && j.JObj?
      && ParseUsername(Member(j.fields, "name")).Ok?
      && ParseMessageContent(Member(j.fields, "message")).Ok?
      && ParsePositiveInteger(Member(j.fields, "timestamp")).Ok?
    ensures r.Ok? ==>
      && IsUsername(r.value.name)
      && r.value.name == j.fields["name"].s
      && r.value.message == Trim(j.fields["message"].s)
      && r.value.timestamp >= 1
      && r.value.timestamp as real == j.fields["timestamp"].n
  {
    match j
    case JObj(f) =>
      var name := ParseUsername(Member(f, "name"));
      var message := ParseMessageContent(Member(f, "message"));
      var timestamp := ParsePositiveInteger(Member(f, "timestamp"));
      if name.Ok? && message.Ok? && timestamp.Ok? then
        Ok(ChatMessage(name.value, message.value, timestamp.value))
      else
        Err(IssuesOf(name) + IssuesOf(message) + IssuesOf(timestamp))
    case _ => Err([WrongType("object")])
  }

  /** The frames of `websocketMessageSchema`, one per variant. */
  datatype ServerMessage =
    | ChatFrame(name: string, message: string, timestamp: int)
    | SystemFrame(content: string, timestamp: int)
    | JoinFrame(joined: string)
    | QuitFrame(quit: string)
    | ErrorFrame(error: string)
    | ReadyFrame

  const FRAME_TYPES: set<string> := {"chat", "system", "join", "quit", "error", "ready"}

  /** `websocketMessageSchema` (app/schemas/chat.ts:35-59): the member
      `type` selects the variant, whose schema then checks the rest. `now`
      is the `Date.now()` a system message's default timestamp takes. */
  function ParseServerMessage(j: Json, now: int): (r: Result<ServerMessage, seq<Issue>>)
    ensures r.Ok? ==>
      && j.JObj? && "type" in j.fields && j.fields["type"].JStr?
      && j.fields["type"].s in FRAME_TYPES
    ensures r.Ok? && r.value.JoinFrame? ==> IsUsername(r.value.joined)
    ensures r.Ok? && r.value.QuitFrame? ==> IsUsername(r.value.quit)
    ensures r.Ok? && r.value.ReadyFrame? ==> Member(j.fields, "ready") == Some(JBool(true))
    ensures j.JObj? && Member(j.fields, "type") == Some(JStr("ready")) && Member(j.fields, "ready") != Some(JBool(true))
      ==> r == Err([WrongLiteral])
    ensures r.Ok? && r.value.ChatFrame? ==> IsUsername(r.value.name) && r.value.timestamp >= 1
    ensures r.Ok? && r.value.SystemFrame? ==> r.value.timestamp >= 1
    ensures !j.JObj? ==> r == Err([WrongType("object")])
    ensures j.JObj? && !(Member(j.fields, "type").Some? && j.fields["type"].JStr? && j.fields["type"].s in FRAME_TYPES)
      ==> r == Err([BadDiscriminator])
  {
    match j
    case JObj(f) =>
      var kind := Member(f, "type");
      if kind == Some(JStr("chat")) then
        match ParseChatMessage(j)
        case Ok(m) => Ok(ChatFrame(m.name, m.message, m.timestamp))
        case Err(e) => Err(e)
      else if kind == Some(JStr("system")) then
        var content := ParseMessageContent(Member(f, "content"));
        var timestamp := ParseTimestamp(Member(f, "timestamp"), now);
        if content.Ok? && timestamp.Ok? then Ok(SystemFrame(content.value, timestamp.value))
        else Err(IssuesOf(content) + IssuesOf(timestamp))
      else if kind == Some(JStr("join")) then
        match ParseUsername(Member(f, "joined"))
        case Ok(u) => Ok(JoinFrame(u))
        case Err(e) => Err(e)
      else if kind == Some(JStr("quit")) then
        match ParseUsername(Member(f, "quit"))
        case Ok(u) => Ok(QuitFrame(u))
        case Err(e) => Err(e)
      else if kind == Some(JStr("error")) then
        match ParseString(Member(f, "error"))
        case Ok(e) => Ok(ErrorFrame(e))
        case Err(e) => Err(e)
      else if kind == Some(JStr("ready")) then
        if Member(f, "ready") == Some(JBool(true)) then Ok(ReadyFrame) else Err([WrongLiteral])
      else Err([BadDiscriminator])
    case _ => Err([WrongType("object")])
  }

  /** A join or quit notice is accepted exactly when it names a valid
      username, and yields that name. */
  lemma PresenceFrames(f: map<string, Json>, now: int, key: string)
    requires key == "joined" || key == "quit"
    requires Member(f, "type") == Some(JStr(if key == "joined" then "join" else "quit"))
    ensures var r := ParseServerMessage(JObj(f), now);
      (r.Ok? <==> key in f && f[key].JStr? && IsUsername(f[key].s))
      && (r.Ok? ==> r.value == if key == "joined" then JoinFrame(f[key].s) else QuitFrame(f[key].s))
  {
  }

  /** A `chat` frame is accepted exactly when `chatMessageSchema` accepts
      the same object (its `type` member is not one of its keys), and
      yields that message. */
  lemma ChatFrames(f: map<string, Json>, now: int)
    requires Member(f, "type") == Some(JStr("chat"))
    ensures var r := ParseServerMessage(JObj(f), now);
      var m := ParseChatMessage(JObj(f));
      (r.Ok? <==> m.Ok?)
      && (r.Ok? ==> r.value == ChatFrame(m.value.name, m.value.message, m.value.timestamp))
  {
  }

  /** An `error` frame is accepted exactly when `error` is a string, and
      yields that string. */
  lemma ErrorFrames(f: map<string, Json>, now: int)
    requires Member(f, "type") == Some(JStr("error"))
    ensures var r := ParseServerMessage(JObj(f), now);
      (r.Ok? <==> "error" in f && f["error"].JStr?)
      && (r.Ok? ==> r.value == ErrorFrame(f["error"].s))
  {
  }

  /** A `ready` frame is accepted exactly when `ready` is `true`; any
      other value, an absent one included, fails `z.literal(true)`. */
  lemma ReadyFrames(f: map<string, Json>, now: int)
    requires Member(f, "type") == Some(JStr("ready"))
    ensures var r := ParseServerMessage(JObj(f), now);
      (r.Ok? <==> Member(f, "ready") == Some(JBool(true)))
      && (r.Ok? ==> r.value == ReadyFrame)
      && (r.Err? ==> r.error == [WrongLiteral])
  {
  }

  /** A system message without a timestamp is stamped with the clock;
      one with a timestamp keeps it when it is a positive integer. */
  lemma SystemTimestampDefault(f: map<string, Json>, now: int)
    requires Member(f, "type") == Some(JStr("system"))
    requires ParseMessageContent(Member(f, "content")).Ok?
    ensures "timestamp" !in f && now >= 1 ==>
      ParseServerMessage(JObj(f), now) == Ok(SystemFrame(Trim(f["content"].s), now))
    ensures "timestamp" in f ==>
      (ParseServerMessage(JObj(f), now).Ok? <==>
        f["timestamp"].JNum? && IsInteger(f["timestamp"].n) && f["timestamp"].n > 0.0)
  {
  }

  /** No frame the room sends carries a `type` member, so the browser's
      `websocketMessageSchema` rejects every one of them. */
  lemma RoomFramesRejected(frame: RoomFrames.Frame, now: int)
    ensures ParseServerMessage(RoomFrames.ToJson(frame), now) == Err([BadDiscriminator])
  {
  }

  /** A public room name follows the same rule as a username. */
  predicate IsPublicRoomName(s: string) {
    IsUsername(s)
  }

  /** A private room id, `/^[0-9a-f]{64}$/`: exactly 64 lower-case
      hexadecimal digits. */
  predicate IsPrivateRoomId(s: string) {
    |s| == 64 && forall i :: 0 <= i < |s| ==> IsLowerHexChar(s[i])
  }

  function PublicRoomIssues(s: string): seq<Issue> {
    (if |s| < 1 then [Custom("Room name is required")] else [])
    + (if |s| > 32 then [Custom("Room name must be 32 characters or less")] else [])
    + (if !MatchesNamePattern(s) then [Custom("Room name can only contain letters, numbers, underscores, and hyphens")] else [])
  }

  lemma PublicRoomIssuesEmpty(s: string)
    ensures PublicRoomIssues(s) == [] <==> IsPublicRoomName(s)
  {
    if !IsPublicRoomName(s) {
      if |s| < 1 || |s| > 32 {
        assert |PublicRoomIssues(s)| > 0;
      } else {
        assert !MatchesNamePattern(s);
      }
    }
  }

  /** `roomIdSchema` (app/schemas/chat.ts:62-70): the first branch of the
      union that accepts wins. When none does, zod 3 reports the issues of
      the first branch whose string checks ran, which for a string is the
      public branch, and a union mismatch only when no branch got a
      string. */
  function ParseRoomId(v: Option<Json>): (r: Result<string, seq<Issue>>)
    ensures r.Ok? <==> v.Some? && v.value.JStr? && (IsPublicRoomName(v.value.s) || IsPrivateRoomId(v.value.s))
    ensures r.Ok? ==> r.value == v.value.s
    ensures !(v.Some? && v.value.JStr?) ==> r == Err([NoUnionMatch])
    ensures v.Some? && v.value.JStr? && r.Err? ==> r.error == PublicRoomIssues(v.value.s) && r.error != []
  {
    match ParseString(v)
    case Err(_) => Err([NoUnionMatch])
    case Ok(s) =>
      PublicRoomIssuesEmpty(s);
      if PublicRoomIssues(s) == [] then Ok(s)
      else if IsPrivateRoomId(s) then Ok(s)
      else Err(PublicRoomIssues(s))
  }

  /** A 64-character id with an upper-case (or any non-hex) character is
      not a room id. */
  lemma UpperCaseRoomIdRejected(s: string, k: nat)
    requires |s| == 64 && k < 64 && !IsLowerHexChar(s[k])
    ensures ParseRoomId(Some(JStr(s))).Err?
  {
  }
}
