/** The frames a room sends to its clients (app/durable-objects/ChatRoom/ChatRoom.ts).
    Every outbound text frame in the source is `JSON.stringify` of one of
    these objects (or, for history replay, a stored string that was itself
    produced that way), so the model identifies a text frame with the value
    it encodes. */
module RoomFrames {
  import opened Base

  type SocketId = nat

  datatype Frame =
    | Chat(name: string, message: string, timestamp: int)  // {name, message, timestamp}
    | Joined(joined: string)                                // {joined}
    | Quit(quit: string)                                    // {quit}
    | Error(error: string)                                  // {error}
    | Ready                                                 // {ready: true}

  /** The object a client's `JSON.parse` recovers from a frame. */
  function ToJson(f: Frame): (j: Json)
    ensures j.JObj? && "type" !in j.fields
  {
    match f
    case Chat(n, m, t) => JObj(map["name" := JStr(n), "message" := JStr(m), "timestamp" := JNum(t as real)])
    case Joined(n) => JObj(map["joined" := JStr(n)])
    case Quit(n) => JObj(map["quit" := JStr(n)])
    case Error(e) => JObj(map["error" := JStr(e)])
    case Ready => JObj(map["ready" := JBool(true)])
  }
}
